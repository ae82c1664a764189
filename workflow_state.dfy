/** The workflow store of src/stores/workflow.js: eight fixed steps, each
    with a status, a capped `currentStep` index, the merged creation
    parameters, the key/value intermediate results, the final result and
    the start time. The Pinia refs become the fields of a class; the
    computed getters become functions of the step list. */
module WorkflowState {
  import opened Wrappers
  import opened JsValues

  datatype Status = Pending | InProgress | Completed | Failed

  datatype Step = Step(id: string, name: string, status: Status, description: string)

  /** The step ids in pipeline order. */
  const StepIds: seq<string> :=
    ["params", "knowledge", "profile", "empathy", "article", "titles", "compliance", "formatting"]

  const InitialSteps: seq<Step> := [
    Step("params", "参数收集", Pending, "填写创作参数"),
    Step("knowledge", "知识库检索", Pending, "AI生成模拟数据"),
    Step("profile", "用户画像", Pending, "生成目标用户"),
    Step("empathy", "共情点提取", Pending, "提取核心痛点"),
    Step("article", "文章生成", Pending, "撰写文案内容"),
    Step("titles", "标题优化", Pending, "生成标题候选"),
    Step("compliance", "违禁词审核", Pending, "合规性检查"),
    Step("formatting", "格式调整", Pending, "优化排版")
  ]

  predicate DistinctIds(steps: seq<Step>) {
    forall i, j :: 0 <= i < j < |steps| ==> steps[i].id != steps[j].id
  }

  /** The fixed step list: eight pending steps whose ids are distinct and
      come in pipeline order. */
  lemma InitialStepsFacts()
    ensures |InitialSteps| == |StepIds| == 8
    ensures forall i :: 0 <= i < |InitialSteps| ==> InitialSteps[i].id == StepIds[i]
    ensures forall i :: 0 <= i < |InitialSteps| ==> InitialSteps[i].status == Pending
    ensures DistinctIds(InitialSteps)
  {
  }

  /** The store only ever changes statuses: the list keeps the initial
      ids, names and descriptions. */
  predicate Shaped(steps: seq<Step>) {
    |steps| == |InitialSteps|
    && forall i :: 0 <= i < |steps| ==> steps[i] == InitialSteps[i].(status := steps[i].status)
  }

  lemma ShapedDistinct(steps: seq<Step>)
    requires Shaped(steps)
    ensures DistinctIds(steps)
    ensures forall i :: 0 <= i < |steps| ==> steps[i].id == StepIds[i]
  {
    InitialStepsFacts();
  }

  const InitialIntermediateResults: map<string, Value> := map[
    "popularArticles" := Null,
    "keywords" := Null,
    "rtb" := Null,
    "userProfile" := Str(""),
    "empathyPoints" := Null,
    "article" := Str(""),
    "titleOptions" := Null,
    "selectedTitle" := Str(""),
    "complianceResult" := Null,
    "formattedResult" := Null
  ]

  const DefaultModelUsed: string := "claude-sonnet-4.5"

  datatype Metadata = Metadata(generatedAt: Option<string>, duration: int, modelUsed: string)

  datatype FinalResult = FinalResult(title: Value, content: Value, metadata: Metadata)

  const InitialFinalResult := FinalResult(Str(""), Str(""), Metadata(None, 0, DefaultModelUsed))

  // ---------------------------------------------------------------------------
  // Step lookup and status update

  /** `steps.find(s => s.id === id)`, as an index. */
  function FindStep(steps: seq<Step>, id: string): (r: Option<nat>)
    ensures r.Some? ==> r.value < |steps| && steps[r.value].id == id
    ensures r.Some? ==> forall j :: 0 <= j < r.value ==> steps[j].id != id
    ensures r.None? <==> forall j :: 0 <= j < |steps| ==> steps[j].id != id
  {
    if steps == [] then None
    else if steps[0].id == id then Some(0)
    else match FindStep(steps[1..], id)
         case None => None
         case Some(k) => Some(k + 1)
  }

  /** The step list after `updateStepStatus(id, status)`. */
  function WithStatus(steps: seq<Step>, id: string, status: Status): seq<Step> {
    match FindStep(steps, id)
    case None => steps
    case Some(i) => steps[i := steps[i].(status := status)]
  }

  /** With distinct ids, the update changes the status of the step with
      that id and nothing else; an unknown id changes nothing. */
  lemma UpdateOnlyNamed(steps: seq<Step>, id: string, status: Status)
    requires DistinctIds(steps)
    ensures var r := WithStatus(steps, id, status);
            |r| == |steps|
            && forall i :: 0 <= i < |steps| ==>
                 r[i] == (if steps[i].id == id then steps[i].(status := status) else steps[i])
  {
  }

  lemma UnknownIdUnchanged(steps: seq<Step>, id: string, status: Status)
    requires forall j :: 0 <= j < |steps| ==> steps[j].id != id
    ensures WithStatus(steps, id, status) == steps
  {
  }

  /** On the store's own list, updating by the id of step `j` sets the
      status at index `j`, and the list keeps its shape. */
  lemma WithStatusAt(steps: seq<Step>, j: nat, status: Status)
    requires Shaped(steps) && j < |StepIds|
    ensures WithStatus(steps, StepIds[j], status) == steps[j := steps[j].(status := status)]
    ensures Shaped(WithStatus(steps, StepIds[j], status))
  {
    ShapedDistinct(steps);
    var f := FindStep(steps, StepIds[j]);
    assert f.Some? by { assert steps[j].id == StepIds[j]; }
    assert f.value == j;
  }

  /** Every status reset to pending: what `startGeneration` and
      `resetWorkflow` do with their `forEach`. */
  function AllPending(steps: seq<Step>): (r: seq<Step>)
    ensures |r| == |steps|
  {
    seq(|steps|, i requires 0 <= i < |steps| => steps[i].(status := Pending))
  }

  /** Resetting the statuses of the store's list gives back exactly the
      initial list. */
  lemma AllPendingInitial(steps: seq<Step>)
    requires Shaped(steps)
    ensures AllPending(steps) == InitialSteps
  {
    InitialStepsFacts();
    var r := AllPending(steps);
    forall i | 0 <= i < |steps| ensures r[i] == InitialSteps[i] {
      assert steps[i] == InitialSteps[i].(status := steps[i].status);
    }
  }

  // ---------------------------------------------------------------------------
  // Pipeline stages and the step index

  /** The step statuses when steps before `j` are completed, step `j` has
      status `st` and every later step is still pending. */
  predicate Stage(steps: seq<Step>, j: nat, st: Status) {
    j < |steps|
    && forall i :: 0 <= i < |steps| ==>
         steps[i].status == (if i < j then Completed else if i == j then st else Pending)
  }

  /** Changing the status of the current stage's step. */
  lemma StageStatus(steps: seq<Step>, j: nat, st: Status, st2: Status)
    requires Shaped(steps) && j < |StepIds| && Stage(steps, j, st)
    ensures Shaped(WithStatus(steps, StepIds[j], st2))
    ensures Stage(WithStatus(steps, StepIds[j], st2), j, st2)
  {
    WithStatusAt(steps, j, st2);
  }

  /** A completed stage is the next stage, still pending. */
  lemma StageNext(steps: seq<Step>, j: nat)
    requires Stage(steps, j, Completed) && j + 1 < |steps|
    ensures Stage(steps, j + 1, Pending)
  {
  }

  lemma StageStart(steps: seq<Step>)
    requires Shaped(steps)
    ensures Stage(AllPending(steps), 0, Pending)
  {
  }

  /** After the last stage completes, the whole workflow is complete. */
  lemma StageLastComplete(steps: seq<Step>)
    requires |steps| > 0 && Stage(steps, |steps| - 1, Completed)
    ensures IsWorkflowComplete(steps)
  {
  }

  /** `nextStep`: one step on, but never past the last step. */
  function NextIndex(k: int, len: int): (r: int)
    ensures k < len - 1 ==> r == k + 1
    ensures k >= len - 1 ==> r == k
  {
    if k < len - 1 then k + 1 else k
  }

  /** From index 0, repeated `nextStep` calls climb one at a time and stay
      within the step list. */
  lemma {:induction false} NextIndexBounded(k: int, len: nat, n: nat)
    requires 0 <= k < len
    ensures 0 <= Advance(k, len, n) < len
    ensures Advance(k, len, n) >= k
    ensures Advance(k, len, n) == if k + n < len then k + n else len - 1
  {
    if n > 0 {
      NextIndexBounded(k, len, n - 1);
    }
  }

  /** `n` consecutive `nextStep` calls. */
  function Advance(k: int, len: int, n: nat): int {
    if n == 0 then k else NextIndex(Advance(k, len, n - 1), len)
  }

  // ---------------------------------------------------------------------------
  // Computed getters

  /** `currentStepInfo`: the step at the current index, undefined when the
      index is outside the list. */
  function CurrentStepInfo(steps: seq<Step>, currentStep: int): (r: Option<Step>)
    ensures r.Some? <==> 0 <= currentStep < |steps|
    ensures r.Some? ==> r.value == steps[currentStep]
  {
    if 0 <= currentStep < |steps| then Some(steps[currentStep]) else None
  }

  predicate IsWorkflowComplete(steps: seq<Step>) {
    forall i :: 0 <= i < |steps| ==> steps[i].status == Completed
  }

  predicate NoneCompleted(steps: seq<Step>) {
    forall i :: 0 <= i < |steps| ==> steps[i].status != Completed
  }

  /** `completedStepsCount`: the `filter(...).length` of the completed steps. */
  function CompletedStepsCount(steps: seq<Step>): (r: nat)
    ensures r <= |steps|
    ensures r == |steps| <==> IsWorkflowComplete(steps)
    ensures r == 0 <==> NoneCompleted(steps)
  {
    if steps == [] then 0
    else
      assert forall i :: 1 <= i < |steps| ==> steps[1..][i - 1] == steps[i];
      (if steps[0].status == Completed then 1 else 0) + CompletedStepsCount(steps[1..])
  }

  /** The count splits over a concatenation. */
  lemma {:induction false} CompletedStepsCountAppend(a: seq<Step>, b: seq<Step>)
    ensures CompletedStepsCount(a + b) == CompletedStepsCount(a) + CompletedStepsCount(b)
  {
    if a == [] {
      assert a + b == b;
    } else {
      assert (a + b)[0] == a[0];
      assert (a + b)[1..] == a[1..] + b;
      CompletedStepsCountAppend(a[1..], b);
    }
  }

  /** At stage `j`, exactly the `j` earlier steps are completed (plus the
      current one when it is). */
  lemma {:induction false} StageCount(steps: seq<Step>, j: nat, st: Status)
    requires Stage(steps, j, st)
    ensures CompletedStepsCount(steps) == j + (if st == Completed then 1 else 0)
  {
    var rest := steps[j + 1..];
    StagePrefixComplete(steps, j, st);
    StageSuffixPending(steps, j, st);
    assert steps == steps[..j] + ([steps[j]] + rest);
    CompletedStepsCountAppend(steps[..j], [steps[j]] + rest);
    CompletedStepsCountAppend([steps[j]], rest);
  }

  lemma StagePrefixComplete(steps: seq<Step>, j: nat, st: Status)
    requires Stage(steps, j, st)
    ensures IsWorkflowComplete(steps[..j])
  {
    var a := steps[..j];
    forall i | 0 <= i < |a|
      ensures a[i].status == Completed
    {
      assert a[i] == steps[i];
    }
  }

  lemma StageSuffixPending(steps: seq<Step>, j: nat, st: Status)
    requires Stage(steps, j, st)
    ensures NoneCompleted(steps[j + 1..])
  {
    var b := steps[j + 1..];
    forall i | 0 <= i < |b|
      ensures b[i].status != Completed
    {
      assert b[i] == steps[j + 1 + i];
    }
  }

  /** `workflowProgress`: `Math.round(count / length * 100)`; an empty
      list would give NaN, modelled as None. */
  function WorkflowProgress(steps: seq<Step>): (r: Option<int>)
    ensures r.None? <==> steps == []
    ensures r.Some? ==> 0 <= r.value <= 100
    ensures r.Some? ==> RoundsTo(r.value, CompletedStepsCount(steps), |steps|)
  {
    if steps == [] then None else Some(RoundedPercent(CompletedStepsCount(steps), |steps|))
  }

  /** `q` is 100 * c / l rounded half up: q - 1/2 <= 100 * c / l < q + 1/2. */
  predicate RoundsTo(q: int, c: nat, l: nat) {
    2 * l * q - l <= 200 * c < 2 * l * q + l
  }

  function RoundedPercent(c: nat, l: nat): (q: int)
    requires 0 < l && c <= l
    ensures 0 <= q <= 100
    ensures RoundsTo(q, c, l)
  {
    var a := 200 * c + l;
    var b := 2 * l;
    var q := a / b;
    assert b * q <= a < b * q + b;
    assert q <= 100 by {
      if q > 100 { MulMono(b, 101, q); }
    }
    q
  }

  lemma MulMono(b: nat, x: int, y: int)
    requires x <= y
    ensures b * x <= b * y
  {
    assert b * y - b * x == b * (y - x);
  }

  /** With fewer than 200 steps, the progress is 100 exactly when every
      step is completed (from 200 steps on, one unfinished step can round
      up to 100). */
  lemma ProgressFullIffComplete(steps: seq<Step>)
    requires 0 < |steps| < 200
    ensures WorkflowProgress(steps) == Some(100) <==> IsWorkflowComplete(steps)
  {
    var c := CompletedStepsCount(steps);
    var l := |steps|;
    var q := WorkflowProgress(steps).value;
    assert RoundsTo(q, c, l);
    if q == 100 {
      assert 199 * l <= 200 * c;
      assert c == l;
    }
    if c == l {
      if q < 100 { MulMono(2 * l, q, 99); }
      assert q == 100;
    }
  }

  /** With at most 200 steps, the progress is 0 exactly when no step is
      completed. */
  lemma ProgressZeroIffNone(steps: seq<Step>)
    requires 0 < |steps| <= 200
    ensures WorkflowProgress(steps) == Some(0) <==> NoneCompleted(steps)
  {
    var c := CompletedStepsCount(steps);
    var l := |steps|;
    var q := WorkflowProgress(steps).value;
    assert RoundsTo(q, c, l);
    if q == 0 {
      assert 200 * c < l;
      assert c == 0;
    }
    if c == 0 {
      if q > 0 { MulMono(2 * l, 1, q); }
      assert q == 0;
    }
  }

  /** `setFinalResult`'s duration: `startTime ? now - startTime : 0`, with
      a start time of 0 being falsy. */
  function Duration(startTime: Option<int>, now: int): (r: int)
    ensures startTime.Some? && startTime.value != 0 ==> r == now - startTime.value
    ensures startTime.None? || startTime.value == 0 ==> r == 0
  {
    if startTime.Some? && startTime.value != 0 then now - startTime.value else 0
  }

  // ---------------------------------------------------------------------------
  // The store

  class WorkflowStore {
    var currentStep: int
    var steps: seq<Step>
    var parameters: map<string, Value>
    var intermediateResults: map<string, Value>
    var finalResult: FinalResult
    var startTime: Option<int>

    predicate Valid()
      reads this
    {
      Shaped(steps)
    }

    constructor ()
      ensures Valid()
      ensures currentStep == 0 && steps == InitialSteps
      ensures parameters == map[] && intermediateResults == InitialIntermediateResults
      ensures finalResult == InitialFinalResult && startTime == None
    {
      currentStep := 0;
      steps := InitialSteps;
      parameters := map[];
      intermediateResults := InitialIntermediateResults;
      finalResult := InitialFinalResult;
      startTime := None;
    }

    /** `intermediateResults.key`: undefined for a key never stored. */
    function Intermediate(key: string): (r: Value)
      reads this
      ensures key in intermediateResults ==> r == intermediateResults[key]
      ensures key !in intermediateResults ==> r == Undefined
    {
      Get(Obj(intermediateResults), key)
    }

    /** `setParameters(params)`: a merge in which the new keys win. */
    method SetParameters(params: map<string, Value>)
      modifies this
      ensures parameters == old(parameters) + params
      ensures forall k :: k in params ==> parameters[k] == params[k]
      ensures forall k :: k in old(parameters) && k !in params ==> parameters[k] == old(parameters)[k]
      ensures steps == old(steps) && currentStep == old(currentStep)
      ensures intermediateResults == old(intermediateResults)
      ensures finalResult == old(finalResult) && startTime == old(startTime)
    {
      parameters := parameters + params;
    }

    /** `updateStepStatus(stepId, status)`: the first step with that id
        takes the new status. */
    method UpdateStepStatus(stepId: string, status: Status)
      modifies this
      ensures steps == WithStatus(old(steps), stepId, status)
      ensures old(Valid()) ==> Valid()
      ensures currentStep == old(currentStep) && parameters == old(parameters)
      ensures intermediateResults == old(intermediateResults)
      ensures finalResult == old(finalResult) && startTime == old(startTime)
    {
      var i := 0;
      while i < |steps| && steps[i].id != stepId
        invariant 0 <= i <= |steps|
        invariant forall j :: 0 <= j < i ==> steps[j].id != stepId
      {
        i := i + 1;
      }
      if i < |steps| {
        assert FindStep(steps, stepId) == Some(i);
        steps := steps[i := steps[i].(status := status)];
      }
      if old(Valid()) {
        ShapedDistinct(old(steps));
        forall k | 0 <= k < |steps|
          ensures steps[k] == InitialSteps[k].(status := steps[k].status)
        {
          assert old(steps)[k] == InitialSteps[k].(status := old(steps)[k].status);
        }
      }
    }

    /** `nextStep()`: advances unless the index is at the last step. */
    method NextStep()
      modifies this
      ensures currentStep == NextIndex(old(currentStep), |steps|)
      ensures 0 <= old(currentStep) < |steps| ==> 0 <= currentStep < |steps|
      ensures currentStep >= old(currentStep)
      ensures steps == old(steps) && parameters == old(parameters)
      ensures intermediateResults == old(intermediateResults)
      ensures finalResult == old(finalResult) && startTime == old(startTime)
    {
      if currentStep < |steps| - 1 {
        currentStep := currentStep + 1;
      }
    }

    /** `setCurrentStep(stepIndex)`: unchecked, so it may leave the range
        of the step list. */
    method SetCurrentStep(stepIndex: int)
      modifies this
      ensures currentStep == stepIndex
      ensures steps == old(steps) && parameters == old(parameters)
      ensures intermediateResults == old(intermediateResults)
      ensures finalResult == old(finalResult) && startTime == old(startTime)
    {
      currentStep := stepIndex;
    }

    /** `saveIntermediateResult(key, value)`. */
    method SaveIntermediateResult(key: string, value: Value)
      modifies this
      ensures intermediateResults == old(intermediateResults)[key := value]
      ensures Intermediate(key) == value
      ensures forall k :: k != key ==> Intermediate(k) == old(Intermediate(k))
      ensures steps == old(steps) && currentStep == old(currentStep)
      ensures parameters == old(parameters)
      ensures finalResult == old(finalResult) && startTime == old(startTime)
    {
      intermediateResults := intermediateResults[key := value];
    }

    /** `setFinalResult({title, content})` at time `now` (ISO text `nowIso`):
        title and content are overwritten, the model name is kept, and the
        duration is measured from the start time when there is one. */
    method SetFinalResult(title: Value, content: Value, now: int, nowIso: string)
      modifies this
      ensures finalResult.title == title && finalResult.content == content
      ensures finalResult.metadata.modelUsed == old(finalResult.metadata.modelUsed)
      ensures finalResult.metadata.generatedAt == Some(nowIso)
      ensures finalResult.metadata.duration == Duration(startTime, now)
      ensures steps == old(steps) && currentStep == old(currentStep)
      ensures parameters == old(parameters) && intermediateResults == old(intermediateResults)
      ensures startTime == old(startTime)
    {
      var metadata := finalResult.metadata.(generatedAt := Some(nowIso), duration := Duration(startTime, now));
      finalResult := FinalResult(title, content, metadata);
    }

    /** The `forEach` that sets every status back to pending. */
    method ResetStatuses()
      modifies this
      ensures steps == AllPending(old(steps))
      ensures currentStep == old(currentStep) && parameters == old(parameters)
      ensures intermediateResults == old(intermediateResults)
      ensures finalResult == old(finalResult) && startTime == old(startTime)
    {
      var s := steps;
      var i := 0;
      while i < |s|
        invariant 0 <= i <= |s| == |steps|
        invariant forall j :: 0 <= j < i ==> s[j] == steps[j].(status := Pending)
        invariant forall j :: i <= j < |s| ==> s[j] == steps[j]
      {
        s := s[i := s[i].(status := Pending)];
        i := i + 1;
      }
      steps := s;
    }

    /** `startGeneration()` at time `now`: the clock starts, the index
        goes back to 0 and every step is pending again; parameters and
        intermediate results are kept. */
    method StartGeneration(now: int)
      requires Valid()
      modifies this
      ensures Valid()
      ensures startTime == Some(now) && currentStep == 0
      ensures steps == InitialSteps && Stage(steps, 0, Pending)
      ensures parameters == old(parameters) && intermediateResults == old(intermediateResults)
      ensures finalResult == old(finalResult)
    {
      startTime := Some(now);
      currentStep := 0;
      StageStart(steps);
      AllPendingInitial(steps);
      ResetStatuses();
    }

    /** `resetWorkflow()`: every field back to its initial value. */
    method ResetWorkflow()
      requires Valid()
      modifies this
      ensures Valid()
      ensures currentStep == 0 && steps == InitialSteps
      ensures parameters == map[] && intermediateResults == InitialIntermediateResults
      ensures finalResult == InitialFinalResult && startTime == None
    {
      currentStep := 0;
      parameters := map[];
      intermediateResults := InitialIntermediateResults;
      finalResult := InitialFinalResult;
      AllPendingInitial(steps);
      ResetStatuses();
      startTime := None;
    }
  }
}
