/** The list of document-upload tasks shown while files are processed. Each task
    has a progress in [0, 1], a stage, a done flag and, while a progress timer runs,
    the timer's id. The list operations replace the list; the timers themselves
    (and the simulated progress curve they drive) are not modelled, only whether a
    task still holds one. */
module UploadTasks {
  import opened Common

  datatype Task = Task(
    id: string,
    name: string,
    startAt: int,
    progress: real,
    stage: string,
    done: bool,
    timerId: Option<nat>)

  /** The members a patch may carry; absent ones leave the current value in place. */
  datatype Patch = Patch(
    name: Option<string>,
    progress: Option<real>,
    stage: Option<string>,
    done: Option<bool>)

  function Clamp(p: real): (r: real)
    ensures 0.0 <= r <= 1.0
    ensures 0.0 <= p <= 1.0 ==> r == p
    ensures p < 0.0 ==> r == 0.0
    ensures p > 1.0 ==> r == 1.0
  {
    if p > 1.0 then 1.0 else if p < 0.0 then 0.0 else p
  }

  /** One task after a patch: the patch's members override, a non-empty stage decides the
      done flag ("done" forces it), a terminal stage drops the timer, and a patched
      progress is clamped to [0, 1]. */
  function Patched(t: Task, patch: Patch): (r: Task)
    ensures r.id == t.id && r.startAt == t.startAt
    ensures r.name == patch.name.GetOr(t.name)
    ensures r.stage == patch.stage.GetOr(t.stage)
    ensures patch.stage == Some("done") ==> r.done
    ensures patch.stage != Some("done") ==> r.done == patch.done.GetOr(t.done)
    ensures patch.stage == Some("done") || patch.stage == Some("error") ==> r.timerId.None?
    ensures !(patch.stage == Some("done") || patch.stage == Some("error")) ==> r.timerId == t.timerId
    ensures patch.progress.Some? ==> r.progress == Clamp(patch.progress.value)
    ensures patch.progress.None? ==> r.progress == t.progress
  {
    var spread := t.(name := patch.name.GetOr(t.name),
                     progress := patch.progress.GetOr(t.progress),
                     stage := patch.stage.GetOr(t.stage),
                     done := patch.done.GetOr(t.done));
    var staged := if patch.stage.Some? && patch.stage.value != "" then
                    spread.(done := if patch.stage.value == "done" then true else patch.done.GetOr(t.done))
                  else spread;
    var stopped := if patch.stage == Some("error") || patch.stage == Some("done") then
                     (if t.timerId.Some? then staged.(timerId := None) else staged)
                   else staged;
    if patch.progress.Some? then stopped.(progress := Clamp(patch.progress.value)) else stopped
  }

  /** Every task whose id matches is patched; the others are kept as they are. */
  function UpdateById(tasks: seq<Task>, id: string, patch: Patch): (r: seq<Task>)
    ensures |r| == |tasks|
    ensures forall i :: 0 <= i < |tasks| ==> r[i] == if tasks[i].id == id then Patched(tasks[i], patch) else tasks[i]
  {
    seq(|tasks|, i requires 0 <= i < |tasks| => if tasks[i].id == id then Patched(tasks[i], patch) else tasks[i])
  }

  /** A task finished by hand: full progress, stage "ready", done, and no timer. */
  function Completed(t: Task): Task {
    t.(progress := 1.0, stage := "ready", done := true, timerId := None)
  }

  function CompleteById(tasks: seq<Task>, id: string): (r: seq<Task>)
    ensures |r| == |tasks|
    ensures forall i :: 0 <= i < |tasks| ==> r[i] == if tasks[i].id == id then Completed(tasks[i]) else tasks[i]
  {
    seq(|tasks|, i requires 0 <= i < |tasks| => if tasks[i].id == id then Completed(tasks[i]) else tasks[i])
  }

  /** The list without any upload carrying that id, in the same order. */
  function Cancel(tasks: seq<Task>, id: string): (r: seq<Task>)
    ensures forall t :: t in r <==> t in tasks && t.id != id
    ensures IsSubsequence(r, tasks)
    ensures |r| <= |tasks|
  {
    if tasks == [] then []
    else if tasks[0].id == id then Cancel(tasks[1..], id)
    else [tasks[0]] + Cancel(tasks[1..], id)
  }

  /** A new task at the end of the list: the row's id (else the generated one) and name
      (else the placeholder), starting at progress 0 in the OCR stage with its timer. */
  function Start(tasks: seq<Task>, rowId: Option<string>, rowName: Option<string>, generatedId: string,
                 now: int, timer: nat): (r: seq<Task>)
    ensures |r| == |tasks| + 1 && r[..|tasks|] == tasks
    ensures r[|tasks|].id == rowId.GetOr(generatedId) && r[|tasks|].progress == 0.0 && !r[|tasks|].done
  {
    var name := if rowName.Some? && rowName.value != "" then rowName.value else "未命名.pdf";
    tasks + [Task(rowId.GetOr(generatedId), name, now, 0.0, "ocr", false, Some(timer))]
  }

  /** Patching one id leaves every other task alone, and the patched ones keep a
      progress in [0, 1] when they had one. */
  lemma UpdateStaysLocal(tasks: seq<Task>, id: string, patch: Patch)
    requires forall i :: 0 <= i < |tasks| ==> 0.0 <= tasks[i].progress <= 1.0
    ensures var r := UpdateById(tasks, id, patch);
            (forall i :: 0 <= i < |tasks| && tasks[i].id != id ==> r[i] == tasks[i])
            && (forall i :: 0 <= i < |r| ==> r[i].id == tasks[i].id && 0.0 <= r[i].progress <= 1.0)
  {
  }

  /** Cancelling removes exactly the uploads carrying that id: every other task keeps its place
      in order, and cancelling again changes nothing. */
  lemma {:induction false} CancelRemovesExactly(tasks: seq<Task>, id: string)
    ensures Cancel(tasks, id) == Filter(tasks, (t: Task) => t.id != id)
    ensures Cancel(Cancel(tasks, id), id) == Cancel(tasks, id)
  {
    if tasks != [] {
      CancelRemovesExactly(tasks[1..], id);
      if tasks[0].id != id {
        assert ([tasks[0]] + Cancel(tasks[1..], id))[1..] == Cancel(tasks[1..], id);
      }
    }
  }
}
