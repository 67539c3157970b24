/** The four-step "new campaign" wizard: details, template, leads, review. */
module CampaignWizard {
  import opened Wrappers
  import opened Text
  import opened SaveRequests
  import LeadUpload

  const FirstStep: int := 1
  const LastStep: int := 4

  /** The notice `handleNext` shows instead of moving on, if any: the current
      step's own requirement is not met. */
  function NextBlocked(step: int, name: string, templateId: string, leadCount: nat): Option<string> {
    if step == 1 && Trim(name) == "" then Some("Campaign name is required")
    else if step == 2 && templateId == "" then Some("Please select a template")
    else if step == 3 && leadCount == 0 then Some("Please upload leads before proceeding")
    else None
  }

  /** The step after `handleNext`: one further, capped at the last step,
      unless the current step's requirement blocks it. */
  function NextStep(step: int, name: string, templateId: string, leadCount: nat): (r: int)
    ensures FirstStep <= step <= LastStep ==> FirstStep <= r <= LastStep
    ensures r == step || r == step + 1 || step > LastStep
    ensures FirstStep <= step <= LastStep ==>
      (r == step + 1 <==> step < LastStep && NextBlocked(step, name, templateId, leadCount).None?)
    ensures step == 1 && AllSpace(name) ==> r == step
  {
    BlankIffAllSpace(name);
    if NextBlocked(step, name, templateId, leadCount).Some? then step
    else if step + 1 <= LastStep then step + 1 else LastStep
  }

  /** The step after `handlePrevious`: one back, never below the first. */
  function PreviousStep(step: int): (r: int)
    ensures FirstStep <= step <= LastStep ==> FirstStep <= r <= LastStep
    ensures step > FirstStep ==> r == step - 1
    ensures step <= FirstStep ==> r == FirstStep
  {
    if step - 1 >= FirstStep then step - 1 else FirstStep
  }

  /** The guard of `handleSave`: the name is checked first, then the template. */
  function SaveDecision(data: map<string, string>): (r: SaveRequest)
    requires "name" in data && "template_id" in data
    ensures r.Create? <==> Trim(data["name"]) != "" && data["template_id"] != ""
    ensures r.Create? ==> r.data == data
    ensures Trim(data["name"]) == "" ==> r == Rejected("Campaign name is required")
    ensures Trim(data["name"]) != "" && data["template_id"] == "" ==> r == Rejected("Please select a template")
  {
    if Trim(data["name"]) == "" then Rejected("Campaign name is required")
    else if data["template_id"] == "" then Rejected("Please select a template")
    else Create(data)
  }

  /** A whitespace-only campaign name never reaches `create`. */
  lemma BlankNameNeverCreates(data: map<string, string>)
    requires "name" in data && "template_id" in data && AllSpace(data["name"])
    ensures SaveDecision(data).Rejected?
  {
    BlankIffAllSpace(data["name"]);
  }

  class Wizard {
    var currentStep: int
    var campaignData: map<string, string>
    var uploadedLeads: seq<LeadUpload.Lead>

    /** The step stays within the four steps, and the two fields the guards
        read are always present. */
    ghost predicate Valid()
      reads this
    {
      FirstStep <= currentStep <= LastStep && "name" in campaignData && "template_id" in campaignData
    }

    constructor ()
      ensures Valid() && currentStep == FirstStep && uploadedLeads == []
      ensures campaignData == map["name" := "", "description" := "", "template_id" := ""]
    {
      currentStep := FirstStep;
      campaignData := map["name" := "", "description" := "", "template_id" := ""];
      uploadedLeads := [];
    }

    /** `handleInputChange`: only `campaignData[field]` changes. */
    method InputChange(field: string, value: string)
      requires Valid()
      modifies this`campaignData
      ensures Valid()
      ensures campaignData == old(campaignData)[field := value]
    {
      campaignData := campaignData[field := value];
    }

    /** The `onLeadsReady` callback given to the lead importer. */
    method LeadsReady(leads: seq<LeadUpload.Lead>)
      requires Valid()
      modifies this`uploadedLeads
      ensures Valid() && uploadedLeads == leads
    {
      uploadedLeads := leads;
    }

    /** `handleNext`. */
    method Next() returns (notice: Option<string>)
      requires Valid()
      modifies this`currentStep
      ensures Valid()
      ensures notice == NextBlocked(old(currentStep), campaignData["name"], campaignData["template_id"], |uploadedLeads|)
      ensures currentStep == NextStep(old(currentStep), campaignData["name"], campaignData["template_id"], |uploadedLeads|)
    {
      notice := None;
      if currentStep == 1 && Trim(campaignData["name"]) == "" {
        notice := Some("Campaign name is required");
        return;
      }
      if currentStep == 2 && campaignData["template_id"] == "" {
        notice := Some("Please select a template");
        return;
      }
      if currentStep == 3 && |uploadedLeads| == 0 {
        notice := Some("Please upload leads before proceeding");
        return;
      }
      currentStep := if currentStep + 1 <= LastStep then currentStep + 1 else LastStep;
    }

    /** `handlePrevious`. */
    method Previous()
      requires Valid()
      modifies this`currentStep
      ensures Valid()
      ensures currentStep == PreviousStep(old(currentStep))
    {
      currentStep := if currentStep - 1 >= FirstStep then currentStep - 1 else FirstStep;
    }

    /** `handleSave` up to the `create` call. */
    method Save() returns (request: SaveRequest)
      requires Valid()
      ensures request == SaveDecision(campaignData)
    {
      if Trim(campaignData["name"]) == "" {
        return Rejected("Campaign name is required");
      }
      if campaignData["template_id"] == "" {
        return Rejected("Please select a template");
      }
      request := Create(campaignData);
    }
  }
}
