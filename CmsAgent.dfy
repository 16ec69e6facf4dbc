/** The project-editing wizard: four submit pages in a fixed order, plus two
    support pages that sit with the last step. The Previous, Next and Save buttons
    first submit the form (and, on some pages, the project's tasks) and then decide
    where to go. The page is the third segment of the current path. */
module CmsAgent {
  import opened Common

  const SubmitPages: seq<string> := ["cms_plan_info", "cms_sdgs_setting", "cms_impact", "cms_contact_person"]
  const SupportPages: seq<string> := ["cms_missions_display", "cms_deep_participation"]

  /** The step a page belongs to: 3 for the support pages, the position of a submit
      page, and -1 for anything else (including a path with no page segment). */
  function PageIndex(page: Option<string>): (i: int)
    ensures page.Some? && page.value in SupportPages ==> i == 3
    ensures page.Some? && page.value !in SupportPages && page.value in SubmitPages ==>
              0 <= i < |SubmitPages| && SubmitPages[i] == page.value
    ensures (page.None? || (page.value !in SupportPages && page.value !in SubmitPages)) ==> i == -1
  {
    if page.Some? && page.value in SupportPages then 3
    else if page.Some? && page.value in SubmitPages then IndexOf(SubmitPages, page.value)
    else -1
  }

  /** The submit page at a step. */
  function IndexPage(i: nat): string
    requires i < |SubmitPages|
  {
    SubmitPages[i]
  }

  /** The page named by a path: its third "/"-separated segment, when there is one. */
  function PageOf(path: string): Option<string> {
    var segments := Split(path, '/');
    if |segments| > 2 then Some(segments[2]) else None
  }

  function EditorPath(page: string, id: string): string {
    "/backend/" + page + "/" + id
  }

  /** Where Previous leads: the missions page back to the impact page, a later step to
      the step before it, and anything else to the first step. */
  function PreviousTarget(page: Option<string>, id: string): (target: string)
    ensures page == Some("cms_missions_display") ==> target == EditorPath("cms_impact", id)
    ensures page != Some("cms_missions_display") && PageIndex(page) > 0 ==>
              target == EditorPath(SubmitPages[PageIndex(page) - 1], id)
    ensures page != Some("cms_missions_display") && PageIndex(page) <= 0 ==>
              target == EditorPath(SubmitPages[0], id)
  {
    var current := PageIndex(page);
    if page == Some("cms_missions_display") then EditorPath("cms_impact", id)
    else if current > 0 then EditorPath(IndexPage(current - 1), id)
    else EditorPath(IndexPage(0), id)
  }

  /** What a press of Next or Save does besides saving the plan. */
  datatype Submission = Submission(parentTasks: bool, childTasks: bool)

  /** The impact page also submits the parent tasks, the participation page the child tasks. */
  function TaskSubmissions(page: Option<string>): (s: Submission)
    ensures s.parentTasks <==> page == Some("cms_impact")
    ensures s.childTasks <==> page == Some("cms_deep_participation")
  {
    Submission(page == Some("cms_impact"), page == Some("cms_deep_participation"))
  }

  /** Where Next leads once the submissions succeed: the participation page back to the
      impact page, the contact page out to the project's public page, and any other page
      to the following step, never past the last one. */
  function NextTarget(page: Option<string>, id: string): (target: string)
    ensures page == Some("cms_deep_participation") ==> target == EditorPath("cms_impact", id)
    ensures page == Some("cms_contact_person") ==> target == "/content/" + id
    ensures page != Some("cms_deep_participation") && page != Some("cms_contact_person") ==>
              exists i :: 0 <= i < |SubmitPages| && i == Min(PageIndex(page) + 1, |SubmitPages| - 1)
                          && target == EditorPath(SubmitPages[i], id)
  {
    var current := PageIndex(page);
    if page == Some("cms_deep_participation") then EditorPath("cms_impact", id)
    else if page == Some("cms_contact_person") then "/content/" + id
    else if current < |SubmitPages| - 1 then EditorPath(IndexPage(current + 1), id)
    else EditorPath(IndexPage(|SubmitPages| - 1), id)
  }

  function Min(a: int, b: int): int { if a <= b then a else b }

  /** The result of pressing Next: the submissions the page calls for and, when
      every submission succeeded (`saved`), the page navigated to; a failed submission
      stays on the page. */
  function NextPage(path: string, id: string, saved: bool): (r: (Submission, Option<string>))
    ensures r.0 == TaskSubmissions(PageOf(path))
    ensures r.1.Some? <==> saved
  {
    var page := PageOf(path);
    (TaskSubmissions(page), if saved then Some(NextTarget(page, id)) else None)
  }

  /** Next from each submit page: plan info to SDG settings to impact to contact, and
      the contact page leaves the editor; the two support pages go to the contact page
      and back to impact. */
  lemma NextWalksTheSteps(id: string)
    ensures NextTarget(Some("cms_plan_info"), id) == EditorPath("cms_sdgs_setting", id)
    ensures NextTarget(Some("cms_sdgs_setting"), id) == EditorPath("cms_impact", id)
    ensures NextTarget(Some("cms_impact"), id) == EditorPath("cms_contact_person", id)
    ensures NextTarget(Some("cms_contact_person"), id) == "/content/" + id
    ensures NextTarget(Some("cms_missions_display"), id) == EditorPath("cms_contact_person", id)
    ensures NextTarget(None, id) == EditorPath("cms_plan_info", id)
  {
    assert PageIndex(Some("cms_sdgs_setting")) == 1 by {
      assert SubmitPages[1] == "cms_sdgs_setting";
      assert "cms_sdgs_setting" !in SubmitPages[..1];
    }
    assert PageIndex(Some("cms_impact")) == 2 by {
      assert SubmitPages[2] == "cms_impact";
    }
  }

  /** Previous undoes Next between consecutive submit steps. */
  lemma PreviousUndoesNext(i: nat, id: string)
    requires i < |SubmitPages| - 1
    ensures PreviousTarget(Some(SubmitPages[i + 1]), id) == EditorPath(SubmitPages[i], id)
  {
    assert PageIndex(Some(SubmitPages[i + 1])) == i + 1;
  }
}
