/** The workflow orchestrator of src/utils/workflowOrchestrator.js: a
    strictly sequential pipeline over the workflow store. Each step marks
    itself in progress, builds a prompt from the store, asks the AI client,
    saves what it got, and then either completes and advances the index or
    is marked failed and passes its error on. The prompt configurations are
    data given to the constructor; the endpoint, `JSON.parse` and
    `JSON.stringify(v, null, 2)` are the oracles of `Env`. */
module Orchestrator {
  import opened Wrappers
  import opened Strings
  import opened JsValues
  import opened TemplateEngine
  import opened JsonRecovery
  import opened GenerationClient
  import opened WorkflowState

  /** One prompt configuration: `systemPrompt`, `userPromptTemplate` and
      the sampling settings passed as `config`. */
  datatype Prompt = Prompt(systemPrompt: string, userPromptTemplate: string, config: Config)

  datatype PromptSet = PromptSet(
    popularArticles: Prompt, keywords: Prompt, rtb: Prompt,
    userProfile: Prompt, empathyPoints: Prompt, articleGeneration: Prompt,
    titleOptimization: Prompt, compliance: Prompt, formatting: Prompt)

  datatype Env = Env(backend: Backend, parse: string -> Option<Value>, prettyJson: Value -> string)

  /** One AI request made by a step: the step's id, the template and the
      variables its user prompt is rendered from, and what the call gave
      back (a text answer is a string value). */
  datatype Ask = Ask(stepId: string, template: string, variables: map<string, Value>, answer: Result<Value>)

  /** A call of the progress callback or of the step-completion callback. */
  datatype Notice = Progress(stepId: string, message: string, data: Value) | StepDone(stepId: string, data: Value)

  /** The title used when no title is selected and none was generated. */
  const DefaultTitle: string := "优质内容分享"

  /** `JSON.stringify(v, null, 2)`: undefined stays undefined, anything
      else becomes its text. */
  function Stringify(v: Value, prettyJson: Value -> string): Value {
    if v.Undefined? then Undefined else Str(prettyJson(v))
  }

  function Read(results: map<string, Value>, key: string): Value {
    Get(Obj(results), key)
  }

  // ---------------------------------------------------------------------------
  // The variables of each prompt

  function KnowledgeVariables(parameters: map<string, Value>, prettyJson: Value -> string): map<string, Value> {
    map["parameters" := Str(prettyJson(Obj(parameters)))]
  }

  function ProfileVariables(parameters: map<string, Value>, results: map<string, Value>, prettyJson: Value -> string): map<string, Value> {
    map["parameters" := Stringify(Obj(parameters), prettyJson),
        "popularArticles" := Stringify(Read(results, "popularArticles"), prettyJson),
        "keywords" := Stringify(Read(results, "keywords"), prettyJson)]
  }

  function EmpathyVariables(parameters: map<string, Value>, results: map<string, Value>, prettyJson: Value -> string): map<string, Value> {
    map["userProfile" := Read(results, "userProfile"),
        "keywords" := Stringify(Read(results, "keywords"), prettyJson),
        "parameters" := Stringify(Obj(parameters), prettyJson)]
  }

  function ArticleVariables(parameters: map<string, Value>, results: map<string, Value>, prettyJson: Value -> string): map<string, Value> {
    map["userProfile" := Read(results, "userProfile"),
        "empathyPoints" := Stringify(Read(results, "empathyPoints"), prettyJson),
        "rtb" := Stringify(Read(results, "rtb"), prettyJson),
        "popularArticles" := Stringify(Read(results, "popularArticles"), prettyJson),
        "parameters" := Stringify(Obj(parameters), prettyJson)]
  }

  function TitleVariables(parameters: map<string, Value>, results: map<string, Value>, prettyJson: Value -> string): map<string, Value> {
    map["article" := Read(results, "article"),
        "parameters" := Stringify(Obj(parameters), prettyJson),
        "popularTitles" := Stringify(Read(results, "popularArticles"), prettyJson)]
  }

  function ComplianceVariables(title: Value, results: map<string, Value>): map<string, Value> {
    map["title" := title, "article" := Read(results, "article")]
  }

  /** Formatting reads the compliance output, not the article or the
      selected title. */
  function FormattingVariables(compliance: Value): map<string, Value> {
    map["title" := Get(compliance, "fixedTitle"), "article" := Get(compliance, "fixedArticle")]
  }

  // ---------------------------------------------------------------------------
  // Title policies

  /** `titles && titles.length > 0`. */
  predicate HasTitles(titles: Value) {
    Truthy(titles) && GreaterThanZero(Get(titles, "length"))
  }

  /** The default selection after title optimisation: `Some(t)` when
      `titles[0].title` is to be stored as `selectedTitle`, `None` when the
      selection is left alone, and the TypeError of reading a property of
      null or undefined. */
  function DefaultSelection(titleOptions: Value): (r: Result<Option<Value>>)
    ensures r.Err? ==> Nullish(titleOptions) || HasTitles(Get(titleOptions, "titles"))
    ensures Nullish(titleOptions) ==> r.Err?
    ensures !Nullish(titleOptions) && !HasTitles(Get(titleOptions, "titles")) ==> r == Ok(None)
    ensures r.Ok? && r.value.Some? ==>
              && HasTitles(Get(titleOptions, "titles"))
              && r.value.value == Get(Get(Get(titleOptions, "titles"), "0"), "title")
  {
    if Nullish(titleOptions) then Err(TypeErrorMessage(titleOptions, "titles"))
    else
      var titles := Get(titleOptions, "titles");
      if HasTitles(titles) then
        var first := Get(titles, "0");
        if Nullish(first) then Err(TypeErrorMessage(first, "title")) else Ok(Some(Get(first, "title")))
      else Ok(None)
  }

  /** A non-empty title list selects the `title` of its first entry. */
  lemma FirstTitleSelected(fields: map<string, Value>, items: seq<Value>)
    requires "titles" in fields && fields["titles"] == Arr(items)
    requires |items| > 0 && !Nullish(items[0])
    ensures DefaultSelection(Obj(fields)) == Ok(Some(Get(items[0], "title")))
  {
    GetArrayIndex(items, 0);
    assert NatToString(0) == "0";
  }

  /** Without titles the selection is left as it was. */
  lemma NoTitlesNoSelection(fields: map<string, Value>)
    requires "titles" !in fields || fields["titles"] == Arr([]) || Nullish(fields["titles"])
    ensures DefaultSelection(Obj(fields)) == Ok(None)
  {
  }

  /** The results after the titles step saved `titleOptions` and, when
      the default selection applies, `selectedTitle`. */
  function TitleResults(results: map<string, Value>, titleOptions: Value): map<string, Value> {
    var saved := results["titleOptions" := titleOptions];
    match DefaultSelection(titleOptions)
    case Ok(Some(t)) => saved["selectedTitle" := t]
    case _ => saved
  }

  /** The compliance step's title: `None` when the stored selection is
      truthy and is used as it is, `Some(t)` when `t` is chosen and stored
      (`titles[0].title || titles[0]`, or the default title when there are
      no titles), and the TypeError of `titles[0].title` on a null entry.
      Whatever is used is never null or undefined. */
  function ChooseTitle(selected: Value, titleOptions: Value): (r: Result<Option<Value>>)
    ensures r.Ok? ==> !Nullish(if r.value.Some? then r.value.value else selected)
    ensures Truthy(selected) ==> r == Ok(None)
  {
    if Truthy(selected) then Ok(None)
    else if Truthy(titleOptions) && HasTitles(Get(titleOptions, "titles")) then
      var first := Get(Get(titleOptions, "titles"), "0");
      if Nullish(first) then Err(TypeErrorMessage(first, "title"))
      else Ok(Some(Or(Get(first, "title"), first)))
    else Ok(Some(Str(DefaultTitle)))
  }

  /** With no selection, the first generated title is used: its `title`
      when that is truthy, otherwise the entry itself. */
  lemma FallbackToFirstTitle(selected: Value, fields: map<string, Value>, items: seq<Value>)
    requires !Truthy(selected)
    requires "titles" in fields && fields["titles"] == Arr(items)
    requires |items| > 0 && !Nullish(items[0])
    ensures ChooseTitle(selected, Obj(fields)) == Ok(Some(Or(Get(items[0], "title"), items[0])))
  {
    GetArrayIndex(items, 0);
    assert NatToString(0) == "0";
  }

  /** With no selection and no generated titles, the default title is used. */
  lemma FallbackToDefaultTitle(selected: Value, titleOptions: Value)
    requires !Truthy(selected)
    requires !Truthy(titleOptions) || Get(titleOptions, "titles") == Arr([]) || !Truthy(Get(titleOptions, "titles"))
    ensures ChooseTitle(selected, titleOptions) == Ok(Some(Str(DefaultTitle)))
  {
  }

  /** The title the compliance prompt uses. */
  function TitleUsed(selected: Value, choice: Option<Value>): Value {
    if choice.Some? then choice.value else selected
  }

  /** The results once the compliance step has settled its title. */
  function ResultsWithTitle(results: map<string, Value>, choice: Option<Value>): map<string, Value> {
    if choice.Some? then results["selectedTitle" := choice.value] else results
  }

  // ---------------------------------------------------------------------------
  // Progress messages read after a step is completed

  /** The compliance report: reading `hasIssues` (and, when it is truthy,
      `issues.length`) throws on null or undefined. */
  function ComplianceMessage(compliance: Value): (r: Result<string>)
    ensures r.Err? <==> Nullish(compliance) || (Truthy(Get(compliance, "hasIssues")) && Nullish(Get(compliance, "issues")))
    ensures Nullish(compliance) ==> r == Err(TypeErrorMessage(compliance, "hasIssues"))
    ensures !Nullish(compliance) && Truthy(Get(compliance, "hasIssues")) && Nullish(Get(compliance, "issues")) ==>
              r == Err(TypeErrorMessage(Get(compliance, "issues"), "length"))
    ensures !Nullish(compliance) && !Truthy(Get(compliance, "hasIssues")) ==> r == Ok("✅ 合规性审核完成，无违规内容")
    ensures !Nullish(compliance) && Truthy(Get(compliance, "hasIssues")) && !Nullish(Get(compliance, "issues")) ==>
              r == Ok("✅ 合规性审核完成，已修正" + ToDisplayString(Get(Get(compliance, "issues"), "length")) + "处问题")
  {
    match Property(compliance, "hasIssues")
    case Err(m) => Err(m)
    case Ok(hasIssues) =>
      if Truthy(hasIssues) then
        match Property(Get(compliance, "issues"), "length")
        case Err(m) => Err(m)
        case Ok(n) => Ok("✅ 合规性审核完成，已修正" + ToDisplayString(n) + "处问题")
      else Ok("✅ 合规性审核完成，无违规内容")
  }

  function FormattingMessage(result: Value): (r: Result<string>)
    ensures r.Ok? <==> !Nullish(result)
  {
    match Property(result, "emojiCount")
    case Err(m) => Err(m)
    case Ok(n) => Ok("✅ 格式调整完成，已插入" + ToDisplayString(n) + "个emoji")
  }

  // ---------------------------------------------------------------------------
  // The profile prompt's missing persona

  /** The user-profile template up to its first placeholder, `{{persona}}`. */
  const ProfileTemplateHead: string := "\n基于以下信息，生成一份150字以内的目标用户画像：\n\n**创作者人设**：\n"

  /** The profile step supplies no `persona` variable, so its prompt
      carries the visible marker `[缺失: persona]` (`MissingMarker`). */
  lemma ProfilePromptMissingPersona(post: string, parameters: map<string, Value>, results: map<string, Value>,
                                    prettyJson: Value -> string)
    ensures Contains(ReplaceTemplateVariables(ProfileTemplateHead + "{{" + "persona" + "}}" + post,
                                              ProfileVariables(parameters, results, prettyJson), prettyJson),
                     MissingMarker("persona"))
  {
    var vars := ProfileVariables(parameters, results, prettyJson);
    PersonaKey();
    HeadHasNoPlaceholder();
    assert "persona" !in vars by {
      assert vars.Keys == {"parameters", "popularArticles", "keywords"};
    }
    MissingKeyLeavesMarker(ProfileTemplateHead, "persona", post, vars, prettyJson);
  }

  lemma PersonaKey()
    ensures Trim("persona") == "persona" && WellFormedKey("persona")
  {
    var key := "persona";
    assert !IsWhitespace(key[0]) && !IsWhitespace(key[|key| - 1]);
    assert TrimStart(key) == key;
    assert TrimEnd(key) == key;
    assert forall i :: 0 <= i < |key| ==> key[i] != '}';
  }

  lemma HeadHasNoPlaceholder()
    ensures LiteralText(ProfileTemplateHead)
  {
  }

  // ---------------------------------------------------------------------------
  // The orchestrator

  /** The requests a run makes, in order: the three knowledge requests,
      then profile, empathy points, article, titles, compliance and
      formatting. */
  const EarlyOrder: seq<string> := ["knowledge", "knowledge", "knowledge", "profile", "empathy", "article"]
  const LateOrder: seq<string> := ["titles", "compliance", "formatting"]
  const RunOrder: seq<string> := EarlyOrder + LateOrder
  const Knowledge3: seq<string> := ["knowledge", "knowledge", "knowledge"]

  /** The ways the early steps split their order. */
  lemma EarlyOrderSplits()
    ensures Knowledge3 + ["profile", "empathy", "article"] == EarlyOrder
    ensures Knowledge3 + ["profile"] + ["empathy", "article"] == EarlyOrder
    ensures Knowledge3 + ["profile"] + ["empathy"] + ["article"] == EarlyOrder
  {
  }

  /** The ways the late steps split their order. */
  lemma LateOrderSplits()
    ensures ["titles"] + ["compliance", "formatting"] == LateOrder
    ensures ["titles"] + ["compliance"] + ["formatting"] == LateOrder
  {
  }

  /** `made` is how a stretch of steps expecting the requests `order` went:
      it follows `order` as far as it goes, every request but the last one
      made was answered, and when the stretch succeeded (`ok`) all of
      `order` was asked and answered. A failure thus stops the stretch
      right after the failed request. */
  predicate AskedInOrder(made: seq<Ask>, order: seq<string>, ok: bool)
    decreases |made|
  {
    if |made| == 0 then ok ==> order == []
    else
      && order != []
      && made[0].stepId == order[0]
      && if |made| == 1 then ok ==> order == [order[0]] && made[0].answer.Ok?
         else made[0].answer.Ok? && AskedInOrder(made[1..], order[1..], ok)
  }

  /** `AskedInOrder` spelled out: the requests follow the order, all but
      the last were answered, and success means the whole order was asked
      and answered. */
  lemma {:induction false} AskedInOrderMeaning(made: seq<Ask>, order: seq<string>, ok: bool)
    ensures AskedInOrder(made, order, ok) <==>
              && |made| <= |order|
              && (forall i :: 0 <= i < |made| ==> made[i].stepId == order[i])
              && (forall i :: 0 <= i < |made| - 1 ==> made[i].answer.Ok?)
              && (ok ==> |made| == |order| && forall i :: 0 <= i < |made| ==> made[i].answer.Ok?)
    decreases |made|
  {
    if |made| > 1 && |order| > 0 {
      AskedInOrderMeaning(made[1..], order[1..], ok);
      assert forall i :: 1 <= i < |made| && i < |order| ==> made[i] == made[1..][i - 1] && order[i] == order[1..][i - 1];
    }
  }

  /** A stretch that succeeded, followed by another stretch, is a stretch
      for the joined order. */
  lemma {:induction false} InOrderJoin(made1: seq<Ask>, made2: seq<Ask>, order1: seq<string>, order2: seq<string>, ok: bool)
    requires AskedInOrder(made1, order1, true) && AskedInOrder(made2, order2, ok)
    ensures AskedInOrder(made1 + made2, order1 + order2, ok)
    decreases |made1|
  {
    if |made1| == 0 {
      assert made1 + made2 == made2 && order1 + order2 == order2;
    } else if |made1| == 1 {
      assert order1 == [order1[0]];
      if |made2| == 0 {
        assert order2 == [] || !ok;
        assert made1 + made2 == made1;
        if order2 != [] {
          assert (made1 + made2)[1..] == [];
        }
      } else {
        assert (made1 + made2)[1..] == made2 && (order1 + order2)[1..] == order2;
      }
    } else {
      InOrderJoin(made1[1..], made2, order1[1..], order2, ok);
      assert (made1 + made2)[1..] == made1[1..] + made2;
      assert (order1 + order2)[1..] == order1[1..] + order2;
    }
  }

  /** A failed stretch stops the whole run: the steps still to come ask
      nothing. */
  lemma {:induction false} InOrderStops(made: seq<Ask>, order: seq<string>, rest: seq<string>)
    requires AskedInOrder(made, order, false)
    ensures AskedInOrder(made, order + rest, false)
    decreases |made|
  {
    if |made| > 1 {
      InOrderStops(made[1..], order[1..], rest);
      assert (order + rest)[1..] == order[1..] + rest;
    }
  }

  /** The request log grew from `before` to `after` by a stretch for
      `order`. */
  predicate Extends(before: seq<Ask>, after: seq<Ask>, order: seq<string>, ok: bool) {
    |before| <= |after| && after[..|before|] == before && AskedInOrder(after[|before|..], order, ok)
  }

  /** Two stretches of the log, the first one successful, make one
      stretch for the joined order. */
  lemma ExtendsChain(log0: seq<Ask>, log1: seq<Ask>, log2: seq<Ask>, order1: seq<string>, order2: seq<string>, ok: bool)
    requires Extends(log0, log1, order1, true) && Extends(log1, log2, order2, ok)
    ensures Extends(log0, log2, order1 + order2, ok)
  {
    assert log2[..|log0|] == log1[..|log0|];
    assert log2[|log0|..] == log1[|log0|..] + log2[|log1|..];
    InOrderJoin(log1[|log0|..], log2[|log1|..], order1, order2, ok);
  }

  /** A failed stretch ends its run: the steps still to come add nothing. */
  lemma ExtendsStops(log0: seq<Ask>, log1: seq<Ask>, order: seq<string>, rest: seq<string>)
    requires Extends(log0, log1, order, false)
    ensures Extends(log0, log1, order + rest, false)
  {
    InOrderStops(log1[|log0|..], order, rest);
  }

  /** The knowledge step: one to three knowledge requests, stopping at
      the first unanswered one; success needs all three answered. */
  lemma KnowledgeAsked(before: seq<Ask>, after: seq<Ask>, ok: bool)
    requires |before| < |after| <= |before| + 3 && after[..|before|] == before
    requires after[|before|].stepId == "knowledge"
    requires |before| + 1 < |after| ==> after[|before| + 1].stepId == "knowledge"
    requires |before| + 2 < |after| ==> after[|before| + 2].stepId == "knowledge"
    requires forall i :: |before| <= i < |after| - 1 ==> after[i].answer.Ok?
    requires ok ==> |after| == |before| + 3 && after[|after| - 1].answer.Ok?
    ensures Extends(before, after, Knowledge3, ok)
  {
    var n, made, order := |before|, after[|before|..], Knowledge3;
    if |made| >= 2 {
      assert made[0] == after[n] && after[n].answer.Ok?;
      assert made[1..][0] == after[n + 1];
      if |made| == 3 {
        assert made[1] == after[n + 1] && after[n + 1].answer.Ok?;
        assert made[1..][1..] == [after[n + 2]];
        assert AskedInOrder(made[1..][1..], order[1..][1..], ok);
      }
      assert AskedInOrder(made[1..], order[1..], ok);
    }
  }


  class WorkflowOrchestrator {
    const ai: AIClient
    const store: WorkflowStore
    const prompts: PromptSet
    const env: Env
    /** Whether a progress callback, and a step-completion callback, are set. */
    var onProgress: bool
    var onStepComplete: bool
    /** The callback invocations so far. */
    var notices: seq<Notice>
    /** The AI requests made so far. */
    ghost var asked: seq<Ask>

    constructor (ai: AIClient, store: WorkflowStore, prompts: PromptSet, env: Env)
      ensures this.ai == ai && this.store == store && this.prompts == prompts && this.env == env
      ensures !onProgress && !onStepComplete && notices == [] && asked == []
    {
      this.ai := ai;
      this.store := store;
      this.prompts := prompts;
      this.env := env;
      onProgress := false;
      onStepComplete := false;
      notices := [];
      asked := [];
    }

    method SetProgressCallback(present: bool)
      modifies this
      ensures onProgress == present
      ensures onStepComplete == old(onStepComplete) && notices == old(notices) && asked == old(asked)
    {
      onProgress := present;
    }

    method SetStepCompleteCallback(present: bool)
      modifies this
      ensures onStepComplete == present
      ensures onProgress == old(onProgress) && notices == old(notices) && asked == old(asked)
    {
      onStepComplete := present;
    }

    /** `reportProgress(stepId, message, data)`: the callback is invoked
        only when one is set. */
    method ReportProgress(stepId: string, message: string, data: Value)
      modifies this
      ensures notices == old(notices) + (if onProgress then [Progress(stepId, message, data)] else [])
      ensures onProgress == old(onProgress) && onStepComplete == old(onStepComplete) && asked == old(asked)
    {
      if onProgress {
        notices := notices + [Progress(stepId, message, data)];
      }
    }

    /** `if (this.onStepComplete) this.onStepComplete(stepId, data)`. */
    method NotifyStepComplete(stepId: string, data: Value)
      modifies this
      ensures notices == old(notices) + (if onStepComplete then [StepDone(stepId, data)] else [])
      ensures onProgress == old(onProgress) && onStepComplete == old(onStepComplete) && asked == old(asked)
    {
      if onStepComplete {
        notices := notices + [StepDone(stepId, data)];
      }
    }

    /** `this.ai.callClaudeJSON(prompt, …)` from step `j`, which must be in
        progress, with the user prompt rendered from the prompt's template
        and `variables`. */
    method AskJson(j: nat, prompt: Prompt, variables: map<string, Value>) returns (r: Result<Value>)
      requires j < |store.steps| && j < |StepIds| && store.steps[j].status == InProgress
      modifies this, ai
      ensures asked == old(asked) + [Ask(StepIds[j], prompt.userPromptTemplate, variables, r)]
      ensures notices == old(notices) && onProgress == old(onProgress) && onStepComplete == old(onStepComplete)
    {
      var userPrompt := ReplaceTemplateVariables(prompt.userPromptTemplate, variables, env.prettyJson);
      r := ai.CallClaudeJSON(userPrompt, prompt.systemPrompt, prompt.config, env.backend, env.parse);
      asked := asked + [Ask(StepIds[j], prompt.userPromptTemplate, variables, r)];
    }

    /** `this.ai.callClaude(prompt, …)` from step `j`, which must be in
        progress; the text comes back as a string value. */
    method AskText(j: nat, prompt: Prompt, variables: map<string, Value>) returns (r: Result<Value>)
      requires j < |store.steps| && j < |StepIds| && store.steps[j].status == InProgress
      modifies this, ai
      ensures asked == old(asked) + [Ask(StepIds[j], prompt.userPromptTemplate, variables, r)]
      ensures r.Ok? ==> r.value.Str? || r.value.Null?
      ensures notices == old(notices) && onProgress == old(onProgress) && onStepComplete == old(onStepComplete)
    {
      var userPrompt := ReplaceTemplateVariables(prompt.userPromptTemplate, variables, env.prettyJson);
      var text := ai.CallClaude(userPrompt, prompt.systemPrompt, prompt.config, env.backend);
      match text {
        case Err(m) => r := Err(m);
        case Ok(Some(t)) => r := Ok(Str(t));
        case Ok(None) => r := Ok(Null);
      }
      asked := asked + [Ask(StepIds[j], prompt.userPromptTemplate, variables, r)];
    }

    /** Marks step `j` with `status` through `updateStepStatus`. */
    method Mark(j: nat, st: Status, status: Status)
      requires store.Valid() && j < |StepIds| && Stage(store.steps, j, st)
      modifies store
      ensures store.Valid() && Stage(store.steps, j, status)
      ensures store.currentStep == old(store.currentStep) && store.parameters == old(store.parameters)
      ensures store.intermediateResults == old(store.intermediateResults)
      ensures store.finalResult == old(store.finalResult) && store.startTime == old(store.startTime)
    {
      StageStatus(store.steps, j, st, status);
      store.UpdateStepStatus(StepIds[j], status);
    }

    /** The opening of a step: `updateStepStatus(id, 'in_progress')` and
        the first progress report. */
    method Begin(j: nat, message: string)
      requires store.Valid() && j < |StepIds| && Stage(store.steps, j, Pending)
      modifies this, store
      ensures store.Valid() && Stage(store.steps, j, InProgress)
      ensures store.currentStep == old(store.currentStep) && store.parameters == old(store.parameters)
      ensures store.intermediateResults == old(store.intermediateResults)
      ensures store.finalResult == old(store.finalResult) && store.startTime == old(store.startTime)
      ensures onProgress == old(onProgress) && onStepComplete == old(onStepComplete) && asked == old(asked)
    {
      Mark(j, Pending, InProgress);
      ReportProgress(StepIds[j], message, Null);
    }

    /** `updateStepStatus(id, 'completed')` followed by `nextStep()`. */
    method Complete(j: nat)
      requires store.Valid() && j < |StepIds| && Stage(store.steps, j, InProgress)
      modifies store
      ensures store.Valid() && Stage(store.steps, j, Completed)
      ensures store.currentStep == NextIndex(old(store.currentStep), |StepIds|)
      ensures store.parameters == old(store.parameters) && store.intermediateResults == old(store.intermediateResults)
      ensures store.finalResult == old(store.finalResult) && store.startTime == old(store.startTime)
    {
      Mark(j, InProgress, Completed);
      store.NextStep();
    }

    /** The closing progress report and the step-completion callback. */
    method Announce(j: nat, message: string, data: Value)
      requires j < |StepIds|
      modifies this
      ensures notices == old(notices) + (if onProgress then [Progress(StepIds[j], message, Null)] else [])
                                      + (if onStepComplete then [StepDone(StepIds[j], data)] else [])
      ensures onProgress == old(onProgress) && onStepComplete == old(onStepComplete) && asked == old(asked)
    {
      ReportProgress(StepIds[j], message, Null);
      NotifyStepComplete(StepIds[j], data);
    }

    /** The three knowledge requests, each announced by a progress report,
        stopping at the first failure. */
    method AskKnowledge(vars: map<string, Value>) returns (r: Result<(Value, Value, Value)>)
      requires 1 < |store.steps| && store.steps[1].status == InProgress
      modifies this, ai
      ensures onProgress == old(onProgress) && onStepComplete == old(onStepComplete)
      ensures var n := |old(asked)|;
              && n < |asked| <= n + 3 && asked[..n] == old(asked)
              && (forall i :: n <= i < |asked| - 1 ==> asked[i].answer.Ok?)
              && asked[n] == Ask("knowledge", prompts.popularArticles.userPromptTemplate, vars, asked[n].answer)
              && (n + 1 < |asked| ==> asked[n + 1] == Ask("knowledge", prompts.keywords.userPromptTemplate, vars, asked[n + 1].answer))
              && (n + 2 < |asked| ==> asked[n + 2] == Ask("knowledge", prompts.rtb.userPromptTemplate, vars, asked[n + 2].answer))
              && (r.Ok? <==> asked[|asked| - 1].answer.Ok?)
              && (r.Ok? ==> |asked| == n + 3
                            && r.value == (asked[n].answer.value, asked[n + 1].answer.value, asked[n + 2].answer.value))
              && (r.Err? ==> r.message == asked[|asked| - 1].answer.message)
      ensures Extends(old(asked), asked, Knowledge3, r.Ok?)
    {
      ghost var before := asked;
      ReportProgress("knowledge", "正在生成爆文参考...", Null);
      var popularArticles := AskJson(1, prompts.popularArticles, vars);
      if popularArticles.Err? {
        r := Err(popularArticles.message);
        KnowledgeAsked(before, asked, false);
        return;
      }
      ReportProgress("knowledge", "正在提取关键词...", Null);
      var keywords := AskJson(1, prompts.keywords, vars);
      if keywords.Err? {
        r := Err(keywords.message);
        KnowledgeAsked(before, asked, false);
        return;
      }
      ReportProgress("knowledge", "正在生成RTB话术...", Null);
      var rtb := AskJson(1, prompts.rtb, vars);
      if rtb.Err? {
        r := Err(rtb.message);
        KnowledgeAsked(before, asked, false);
        return;
      }
      r := Ok((popularArticles.value, keywords.value, rtb.value));
      KnowledgeAsked(before, asked, true);
    }

    /** Step 2, `stepKnowledgeRetrieval`: three JSON requests in a row;
        the three results are saved only once all of them have succeeded. */
    method StepKnowledgeRetrieval() returns (r: Result<()>)
      requires store.Valid() && Stage(store.steps, 1, Pending)
      modifies this, store, ai
      ensures store.Valid()
      ensures r.Ok? ==> Stage(store.steps, 1, Completed) && store.currentStep == NextIndex(old(store.currentStep), |StepIds|)
      ensures r.Err? ==> Stage(store.steps, 1, Status.Failed)
      ensures store.parameters == old(store.parameters) && store.finalResult == old(store.finalResult)
      ensures store.startTime == old(store.startTime)
      ensures onProgress == old(onProgress) && onStepComplete == old(onStepComplete)
      ensures var n := |old(asked)|;
              var vars := KnowledgeVariables(old(store.parameters), env.prettyJson);
              && n < |asked| <= n + 3 && asked[..n] == old(asked)
              && (forall i :: n <= i < |asked| - 1 ==> asked[i].answer.Ok?)
              && asked[n] == Ask("knowledge", prompts.popularArticles.userPromptTemplate, vars, asked[n].answer)
              && (n + 1 < |asked| ==> asked[n + 1] == Ask("knowledge", prompts.keywords.userPromptTemplate, vars, asked[n + 1].answer))
              && (n + 2 < |asked| ==> asked[n + 2] == Ask("knowledge", prompts.rtb.userPromptTemplate, vars, asked[n + 2].answer))
              && (r.Ok? <==> asked[|asked| - 1].answer.Ok?)
              && (r.Ok? ==> |asked| == n + 3
                            && store.intermediateResults == old(store.intermediateResults)
                                 ["popularArticles" := asked[n].answer.value]
                                 ["keywords" := asked[n + 1].answer.value]
                                 ["rtb" := asked[n + 2].answer.value])
              && (r.Err? ==> r.message == asked[|asked| - 1].answer.message
                             && store.intermediateResults == old(store.intermediateResults))
      ensures Extends(old(asked), asked, Knowledge3, r.Ok?)
    {
      Begin(1, "正在检索知识库...");
      var answers := AskKnowledge(KnowledgeVariables(store.parameters, env.prettyJson));
      if answers.Err? {
        Mark(1, InProgress, Status.Failed);
        return Err(answers.message);
      }
      var (popularArticles, keywords, rtb) := answers.value;
      store.SaveIntermediateResult("popularArticles", popularArticles);
      store.SaveIntermediateResult("keywords", keywords);
      store.SaveIntermediateResult("rtb", rtb);
      Complete(1);
      Announce(1, "✅ 知识库检索完成", Obj(map["popularArticles" := popularArticles,
                                             "keywords" := keywords, "rtb" := rtb]));
      return Ok(());
    }

    /** Steps 3 and 5, `stepUserProfile` and `stepArticleGeneration`: one
        text request whose answer is saved under `key`. */
    method TextStep(j: nat, prompt: Prompt, vars: map<string, Value>, key: string, startMessage: string, doneMessage: string)
      returns (r: Result<()>)
      requires store.Valid() && j < |StepIds| && Stage(store.steps, j, Pending)
      modifies this, store, ai
      ensures store.Valid()
      ensures r.Ok? ==> Stage(store.steps, j, Completed) && store.currentStep == NextIndex(old(store.currentStep), |StepIds|)
      ensures r.Err? ==> Stage(store.steps, j, Status.Failed)
      ensures store.parameters == old(store.parameters) && store.finalResult == old(store.finalResult)
      ensures store.startTime == old(store.startTime)
      ensures onProgress == old(onProgress) && onStepComplete == old(onStepComplete)
      ensures var n := |old(asked)|;
              && |asked| == n + 1
              && asked == old(asked) + [Ask(StepIds[j], prompt.userPromptTemplate, vars, asked[n].answer)]
              && (asked[n].answer.Ok? ==> asked[n].answer.value.Str? || asked[n].answer.value.Null?)
              && (r.Ok? <==> asked[n].answer.Ok?)
              && (r.Ok? ==> store.intermediateResults == old(store.intermediateResults)[key := asked[n].answer.value])
              && (r.Err? ==> r.message == asked[n].answer.message
                             && store.intermediateResults == old(store.intermediateResults))
      ensures Extends(old(asked), asked, [StepIds[j]], r.Ok?)
    {
      Begin(j, startMessage);
      var answer := AskText(j, prompt, vars);
      if answer.Err? {
        Mark(j, InProgress, Status.Failed);
        return Err(answer.message);
      }
      store.SaveIntermediateResult(key, answer.value);
      Complete(j);
      Announce(j, doneMessage, answer.value);
      return Ok(());
    }

    /** Step 4, `stepEmpathyPoints`: one JSON request whose result is saved
        under `empathyPoints`. */
    method StepEmpathyPoints() returns (r: Result<()>)
      requires store.Valid() && Stage(store.steps, 3, Pending)
      modifies this, store, ai
      ensures store.Valid()
      ensures r.Ok? ==> Stage(store.steps, 3, Completed) && store.currentStep == NextIndex(old(store.currentStep), |StepIds|)
      ensures r.Err? ==> Stage(store.steps, 3, Status.Failed)
      ensures store.parameters == old(store.parameters) && store.finalResult == old(store.finalResult)
      ensures store.startTime == old(store.startTime)
      ensures onProgress == old(onProgress) && onStepComplete == old(onStepComplete)
      ensures var n := |old(asked)|;
              var vars := EmpathyVariables(old(store.parameters), old(store.intermediateResults), env.prettyJson);
              && |asked| == n + 1
              && asked == old(asked) + [Ask("empathy", prompts.empathyPoints.userPromptTemplate, vars, asked[n].answer)]
              && (r.Ok? <==> asked[n].answer.Ok?)
              && (r.Ok? ==> store.intermediateResults == old(store.intermediateResults)["empathyPoints" := asked[n].answer.value])
              && (r.Err? ==> r.message == asked[n].answer.message
                             && store.intermediateResults == old(store.intermediateResults))
      ensures Extends(old(asked), asked, ["empathy"], r.Ok?)
    {
      Begin(3, "正在提取共情点...");
      var vars := EmpathyVariables(store.parameters, store.intermediateResults, env.prettyJson);
      var empathyPoints := AskJson(3, prompts.empathyPoints, vars);
      if empathyPoints.Err? {
        Mark(3, InProgress, Status.Failed);
        return Err(empathyPoints.message);
      }
      store.SaveIntermediateResult("empathyPoints", empathyPoints.value);
      Complete(3);
      Announce(3, "✅ 共情点提取完成", empathyPoints.value);
      return Ok(());
    }

    /** The request part of step 6: the title options are saved, and the
        first title becomes the selection when there is one. The step
        statuses are left alone. */
    method ProposeTitles() returns (r: Result<Value>)
      requires 5 < |store.steps| && store.steps[5].status == InProgress
      modifies this, store, ai
      ensures store.steps == old(store.steps) && store.currentStep == old(store.currentStep)
      ensures store.parameters == old(store.parameters) && store.finalResult == old(store.finalResult)
      ensures store.startTime == old(store.startTime)
      ensures onProgress == old(onProgress) && onStepComplete == old(onStepComplete)
      ensures var n := |old(asked)|;
              var vars := TitleVariables(old(store.parameters), old(store.intermediateResults), env.prettyJson);
              && |asked| == n + 1
              && asked == old(asked) + [Ask("titles", prompts.titleOptimization.userPromptTemplate, vars, asked[n].answer)]
              && (asked[n].answer.Err? ==>
                    r == Err(asked[n].answer.message) && store.intermediateResults == old(store.intermediateResults))
              && (asked[n].answer.Ok? ==>
                    && store.intermediateResults == TitleResults(old(store.intermediateResults), asked[n].answer.value)
                    && (r.Ok? <==> DefaultSelection(asked[n].answer.value).Ok?)
                    && (r.Ok? ==> r.value == asked[n].answer.value)
                    && (r.Err? ==> r.message == DefaultSelection(asked[n].answer.value).message))
    {
      var vars := TitleVariables(store.parameters, store.intermediateResults, env.prettyJson);
      var titleOptions := AskJson(5, prompts.titleOptimization, vars);
      if titleOptions.Err? {
        return Err(titleOptions.message);
      }
      store.SaveIntermediateResult("titleOptions", titleOptions.value);
      var selection := DefaultSelection(titleOptions.value);
      if selection.Err? {
        return Err(selection.message);
      }
      if selection.value.Some? {
        store.SaveIntermediateResult("selectedTitle", selection.value.value);
      }
      return Ok(titleOptions.value);
    }

    /** Step 6, `stepTitleOptimization`. */
    method StepTitleOptimization() returns (r: Result<()>)
      requires store.Valid() && Stage(store.steps, 5, Pending)
      modifies this, store, ai
      ensures store.Valid()
      ensures r.Ok? ==> Stage(store.steps, 5, Completed) && store.currentStep == NextIndex(old(store.currentStep), |StepIds|)
      ensures r.Err? ==> Stage(store.steps, 5, Status.Failed)
      ensures store.parameters == old(store.parameters) && store.finalResult == old(store.finalResult)
      ensures store.startTime == old(store.startTime)
      ensures onProgress == old(onProgress) && onStepComplete == old(onStepComplete)
      ensures var n := |old(asked)|;
              var vars := TitleVariables(old(store.parameters), old(store.intermediateResults), env.prettyJson);
              && |asked| == n + 1
              && asked == old(asked) + [Ask("titles", prompts.titleOptimization.userPromptTemplate, vars, asked[n].answer)]
              && (asked[n].answer.Err? ==>
                    r == Err(asked[n].answer.message) && store.intermediateResults == old(store.intermediateResults))
              && (asked[n].answer.Ok? ==>
                    && store.intermediateResults == TitleResults(old(store.intermediateResults), asked[n].answer.value)
                    && (r.Ok? <==> DefaultSelection(asked[n].answer.value).Ok?)
                    && (r.Err? ==> r.message == DefaultSelection(asked[n].answer.value).message))
      ensures Extends(old(asked), asked, ["titles"], r.Ok?)
    {
      Begin(5, "正在生成标题候选...");
      var titleOptions := ProposeTitles();
      if titleOptions.Err? {
        Mark(5, InProgress, Status.Failed);
        return Err(titleOptions.message);
      }
      Complete(5);
      Announce(5, "✅ 标题生成完成", titleOptions.value);
      return Ok(());
    }

    /** The review part of step 7: settles the title (`ChooseTitle`), asks
        for the review and saves its `compliance` part, which it returns.
        The step statuses are left alone. */
    method ReviewCompliance() returns (r: Result<Value>)
      requires 6 < |store.steps| && store.steps[6].status == InProgress
      modifies this, store, ai
      ensures store.steps == old(store.steps) && store.currentStep == old(store.currentStep)
      ensures store.parameters == old(store.parameters) && store.finalResult == old(store.finalResult)
      ensures store.startTime == old(store.startTime)
      ensures onProgress == old(onProgress) && onStepComplete == old(onStepComplete)
      ensures var n := |old(asked)|;
              var before := old(store.intermediateResults);
              var selected := Read(before, "selectedTitle");
              var choice := ChooseTitle(selected, Read(before, "titleOptions"));
              && (choice.Err? ==> r == Err(choice.message) && asked == old(asked)
                                  && store.intermediateResults == before)
              && (choice.Ok? ==>
                    var titled := ResultsWithTitle(before, choice.value);
                    var vars := ComplianceVariables(TitleUsed(selected, choice.value), before);
                    && |asked| == n + 1
                    && asked == old(asked) + [Ask("compliance", prompts.compliance.userPromptTemplate, vars, asked[n].answer)]
                    && (asked[n].answer.Err? ==>
                          r == Err(asked[n].answer.message) && store.intermediateResults == titled)
                    && (asked[n].answer.Ok? ==>
                          match Property(asked[n].answer.value, "compliance")
                          case Err(m) => r == Err(m) && store.intermediateResults == titled
                          case Ok(c) => r == Ok(c) && store.intermediateResults == titled["complianceResult" := c]))
    {
      var selected := store.Intermediate("selectedTitle");
      var choice := ChooseTitle(selected, store.Intermediate("titleOptions"));
      if choice.Err? {
        return Err(choice.message);
      }
      if choice.value.Some? {
        store.SaveIntermediateResult("selectedTitle", choice.value.value);
      }
      var vars := ComplianceVariables(TitleUsed(selected, choice.value), store.intermediateResults);
      var answer := AskJson(6, prompts.compliance, vars);
      if answer.Err? {
        return Err(answer.message);
      }
      r := Property(answer.value, "compliance");
      if r.Ok? {
        store.SaveIntermediateResult("complianceResult", r.value);
      }
    }

    /** Step 7, `stepCompliance`: the review (`ReviewCompliance`), then the
        step completes and advances; only then is the report read, which
        may still fail the step. */
    method StepCompliance() returns (r: Result<()>)
      requires store.Valid() && Stage(store.steps, 6, Pending)
      modifies this, store, ai
      ensures store.Valid()
      ensures r.Ok? ==> Stage(store.steps, 6, Completed) && store.currentStep == NextIndex(old(store.currentStep), |StepIds|)
      ensures r.Err? ==> Stage(store.steps, 6, Status.Failed)
      ensures store.parameters == old(store.parameters) && store.finalResult == old(store.finalResult)
      ensures store.startTime == old(store.startTime)
      ensures onProgress == old(onProgress) && onStepComplete == old(onStepComplete)
      ensures var n := |old(asked)|;
              var before := old(store.intermediateResults);
              var selected := Read(before, "selectedTitle");
              var choice := ChooseTitle(selected, Read(before, "titleOptions"));
              && (choice.Err? ==> r == Err(choice.message) && asked == old(asked)
                                  && store.intermediateResults == before)
              && (choice.Ok? ==>
                    var titled := ResultsWithTitle(before, choice.value);
                    var vars := ComplianceVariables(TitleUsed(selected, choice.value), before);
                    && |asked| == n + 1
                    && asked == old(asked) + [Ask("compliance", prompts.compliance.userPromptTemplate, vars, asked[n].answer)]
                    && (asked[n].answer.Err? ==>
                          r == Err(asked[n].answer.message) && store.intermediateResults == titled)
                    && (asked[n].answer.Ok? ==>
                          match Property(asked[n].answer.value, "compliance")
                          case Err(m) => r == Err(m) && store.intermediateResults == titled
                          case Ok(c) =>
                            && store.intermediateResults == titled["complianceResult" := c]
                            && store.currentStep == NextIndex(old(store.currentStep), |StepIds|)
                            && (r.Ok? <==> ComplianceMessage(c).Ok?)))
      ensures Extends(old(asked), asked, ["compliance"], r.Ok?)
    {
      Begin(6, "正在进行合规性审核...");
      var review := ReviewCompliance();
      if review.Err? {
        Mark(6, InProgress, Status.Failed);
        return Err(review.message);
      }
      Complete(6);
      var message := ComplianceMessage(review.value);
      if message.Err? {
        Mark(6, Completed, Status.Failed);
        return Err(message.message);
      }
      Announce(6, message.value, review.value);
      return Ok(());
    }

    /** Step 8, `stepFormatting`: the prompt is built from the compliance
        output's fixed title and article; the `result` part of the answer
        is saved; the emoji count is read after completion. */
    method StepFormatting() returns (r: Result<()>)
      requires store.Valid() && Stage(store.steps, 7, Pending)
      modifies this, store, ai
      ensures store.Valid()
      ensures r.Ok? ==> Stage(store.steps, 7, Completed) && store.currentStep == NextIndex(old(store.currentStep), |StepIds|)
      ensures r.Ok? ==> !Nullish(store.Intermediate("formattedResult"))
      ensures r.Err? ==> Stage(store.steps, 7, Status.Failed)
      ensures store.parameters == old(store.parameters) && store.finalResult == old(store.finalResult)
      ensures store.startTime == old(store.startTime)
      ensures onProgress == old(onProgress) && onStepComplete == old(onStepComplete)
      ensures var n := |old(asked)|;
              var before := old(store.intermediateResults);
              var compliance := Read(before, "complianceResult");
              && (Nullish(compliance) ==> r == Err(TypeErrorMessage(compliance, "fixedTitle")) && asked == old(asked)
                                          && store.intermediateResults == before)
              && (!Nullish(compliance) ==>
                    && |asked| == n + 1
                    && asked == old(asked) + [Ask("formatting", prompts.formatting.userPromptTemplate, FormattingVariables(compliance), asked[n].answer)]
                    && (asked[n].answer.Err? ==>
                          r == Err(asked[n].answer.message) && store.intermediateResults == before)
                    && (asked[n].answer.Ok? ==>
                          match Property(asked[n].answer.value, "result")
                          case Err(m) => r == Err(m) && store.intermediateResults == before
                          case Ok(res) =>
                            && store.intermediateResults == before["formattedResult" := res]
                            && (r.Ok? <==> FormattingMessage(res).Ok?)))
      ensures Extends(old(asked), asked, ["formatting"], r.Ok?)
    {
      Begin(7, "正在优化格式和插入emoji...");
      var compliance := store.Intermediate("complianceResult");
      if Nullish(compliance) {
        Mark(7, InProgress, Status.Failed);
        return Err(TypeErrorMessage(compliance, "fixedTitle"));
      }
      var answer := AskJson(7, prompts.formatting, FormattingVariables(compliance));
      if answer.Err? {
        Mark(7, InProgress, Status.Failed);
        return Err(answer.message);
      }
      var result := Property(answer.value, "result");
      if result.Err? {
        Mark(7, InProgress, Status.Failed);
        return Err(result.message);
      }
      store.SaveIntermediateResult("formattedResult", result.value);
      Complete(7);
      var message := FormattingMessage(result.value);
      if message.Err? {
        Mark(7, Completed, Status.Failed);
        return Err(message.message);
      }
      Announce(7, message.value, result.value);
      return Ok(());
    }

    /** `setFinalResult()` at time `now`: the final title and content are
        those of the formatted result; a missing formatted result throws
        before anything is written. */
    method SetFinalResult(now: int, nowIso: string) returns (r: Result<()>)
      modifies this, store
      ensures var formatted := old(store.Intermediate("formattedResult"));
              && (Nullish(formatted) ==> r == Err(TypeErrorMessage(formatted, "title"))
                                         && store.finalResult == old(store.finalResult))
              && (!Nullish(formatted) ==>
                    && r == Ok(())
                    && store.finalResult.title == Get(formatted, "title")
                    && store.finalResult.content == Get(formatted, "content")
                    && store.finalResult.metadata
                       == Metadata(Some(nowIso), Duration(store.startTime, now), old(store.finalResult.metadata.modelUsed)))
      ensures store.steps == old(store.steps) && store.currentStep == old(store.currentStep)
      ensures store.parameters == old(store.parameters) && store.intermediateResults == old(store.intermediateResults)
      ensures store.startTime == old(store.startTime)
      ensures onProgress == old(onProgress) && onStepComplete == old(onStepComplete) && asked == old(asked)
    {
      var formatted := store.Intermediate("formattedResult");
      if Nullish(formatted) {
        return Err(TypeErrorMessage(formatted, "title"));
      }
      store.SetFinalResult(Get(formatted, "title"), Get(formatted, "content"), now, nowIso);
      ReportProgress("complete", "🎉 文章生成完成！", Null);
      return Ok(());
    }

    /** Steps 2 to 5 of a run (knowledge, profile, empathy points,
        article), in order, stopping at the first failure. */
    method RunEarlySteps() returns (r: Result<()>)
      requires store.Valid() && Stage(store.steps, 1, Pending) && store.currentStep == 1
      modifies this, store, ai
      ensures store.Valid()
      ensures r.Ok? ==> Stage(store.steps, 4, Completed) && store.currentStep == 5
      ensures r.Err? ==> exists j :: 1 <= j <= 4 && Stage(store.steps, j, Status.Failed)
      ensures store.parameters == old(store.parameters) && store.finalResult == old(store.finalResult)
      ensures store.startTime == old(store.startTime)
      ensures Extends(old(asked), asked, EarlyOrder, r.Ok?)
    {
      ghost var log0 := asked;
      var step := StepKnowledgeRetrieval();
      EarlyOrderSplits();
      if step.Err? {
        ExtendsStops(log0, asked, Knowledge3, ["profile", "empathy", "article"]);
        return Err(step.message);
      }
      StageNext(store.steps, 1);

      ghost var log1 := asked;
      var profileVars := ProfileVariables(store.parameters, store.intermediateResults, env.prettyJson);
      step := TextStep(2, prompts.userProfile, profileVars, "userProfile", "正在生成目标用户画像...", "✅ 用户画像生成完成");
      ExtendsChain(log0, log1, asked, Knowledge3, ["profile"], step.Ok?);
      if step.Err? {
        ExtendsStops(log0, asked, Knowledge3 + ["profile"], ["empathy", "article"]);
        return Err(step.message);
      }
      StageNext(store.steps, 2);

      ghost var log2 := asked;
      step := StepEmpathyPoints();
      ExtendsChain(log0, log2, asked, Knowledge3 + ["profile"], ["empathy"], step.Ok?);
      if step.Err? {
        ExtendsStops(log0, asked, Knowledge3 + ["profile"] + ["empathy"], ["article"]);
        return Err(step.message);
      }
      StageNext(store.steps, 3);

      ghost var log3 := asked;
      var articleVars := ArticleVariables(store.parameters, store.intermediateResults, env.prettyJson);
      step := TextStep(4, prompts.articleGeneration, articleVars, "article", "正在撰写文章...", "✅ 文章生成完成");
      ExtendsChain(log0, log3, asked, Knowledge3 + ["profile"] + ["empathy"], ["article"], step.Ok?);
      if step.Err? { return Err(step.message); }
      return Ok(());
    }

    /** Steps 6 to 8 of a run (titles, compliance, formatting), in order,
        stopping at the first failure. */
    method RunLateSteps() returns (r: Result<()>)
      requires store.Valid() && Stage(store.steps, 5, Pending) && store.currentStep == 5
      modifies this, store, ai
      ensures store.Valid()
      ensures r.Ok? ==> Stage(store.steps, 7, Completed) && store.currentStep == 7
      ensures r.Ok? ==> !Nullish(store.Intermediate("formattedResult"))
      ensures r.Err? ==> exists j :: 5 <= j <= 7 && Stage(store.steps, j, Status.Failed)
      ensures store.parameters == old(store.parameters) && store.finalResult == old(store.finalResult)
      ensures store.startTime == old(store.startTime)
      ensures Extends(old(asked), asked, LateOrder, r.Ok?)
    {
      ghost var log0 := asked;
      var step := StepTitleOptimization();
      LateOrderSplits();
      if step.Err? {
        ExtendsStops(log0, asked, ["titles"], ["compliance", "formatting"]);
        return Err(step.message);
      }
      StageNext(store.steps, 5);

      ghost var log1 := asked;
      step := StepCompliance();
      ExtendsChain(log0, log1, asked, ["titles"], ["compliance"], step.Ok?);
      if step.Err? {
        ExtendsStops(log0, asked, ["titles"] + ["compliance"], ["formatting"]);
        return Err(step.message);
      }
      StageNext(store.steps, 6);

      ghost var log2 := asked;
      step := StepFormatting();
      ExtendsChain(log0, log2, asked, ["titles"] + ["compliance"], ["formatting"], step.Ok?);
      if step.Err? { return Err(step.message); }
      return Ok(());
    }

    /** `executeWorkflow()`, started at `startedAt` and finishing at
        `finishedAt` (ISO text `finishedIso`). A successful run completes
        all eight steps in order, leaves the index on the last step and
        writes the final result from the formatted result; a failed run
        leaves the steps before the failing one completed, that one failed,
        every later one pending, and the final result untouched. */
    method ExecuteWorkflow(startedAt: int, finishedAt: int, finishedIso: string) returns (r: Result<bool>)
      requires store.Valid()
      modifies this, store, ai
      ensures store.Valid()
      ensures store.startTime == Some(startedAt) && store.parameters == old(store.parameters)
      ensures r.Ok? ==> r.value && IsWorkflowComplete(store.steps) && store.currentStep == |StepIds| - 1
      ensures r.Ok? ==>
                var formatted := store.Intermediate("formattedResult");
                && store.finalResult.title == Get(formatted, "title")
                && store.finalResult.content == Get(formatted, "content")
                && store.finalResult.metadata
                   == Metadata(Some(finishedIso), Duration(Some(startedAt), finishedAt), old(store.finalResult.metadata.modelUsed))
      ensures r.Err? ==> (exists j :: 1 <= j < |StepIds| && Stage(store.steps, j, Status.Failed))
                         && store.finalResult == old(store.finalResult)
      ensures Extends(old(asked), asked, RunOrder, r.Ok?)
    {
      store.StartGeneration(startedAt);
      Mark(0, Pending, Completed);
      store.NextStep();
      StageNext(store.steps, 0);

      ghost var log0 := asked;
      var step := RunEarlySteps();
      if step.Err? {
        ExtendsStops(log0, asked, EarlyOrder, LateOrder);
        return Err(step.message);
      }
      StageNext(store.steps, 4);

      ghost var log1 := asked;
      step := RunLateSteps();
      ExtendsChain(log0, log1, asked, EarlyOrder, LateOrder, step.Ok?);
      if step.Err? { return Err(step.message); }
      StageLastComplete(store.steps);

      var final := SetFinalResult(finishedAt, finishedIso);
      if final.Err? {
        assert false;
      }
      return Ok(true);
    }
  }
}
