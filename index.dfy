/** The entry point of the report service: the message that asks for a report is
    turned into the report payload, the report for its assessment type is chosen, and
    the steps that follow the report (storing it, mailing the candidate) are picked
    from a table by assessment type. */
module Index {
  import opened Common
  import opened Text
  import opened OrderedDict
  import opened PyValue
  import opened Edy
  import TalentInsightsReport

  /** The two report generators of the `pdf` table. */
  datatype Report = LeadershipPdf | TalentInsightsPdf

  /** `pdf[assessment_type]`. */
  function PdfFor(t: Value): (r: Result<Report>)
    ensures r.Ok? <==> t.VStr? && t.s in AssessmentTypes
    ensures r == Ok(LeadershipPdf) <==> t == VStr("leadership_assessment")
    ensures r == Ok(TalentInsightsPdf) <==> t == VStr("talentinsights_assessment")
    ensures t.VNone? ==> r == Err(KeyError("None"))
    ensures t.VStr? && t.s !in AssessmentTypes ==> r == Err(KeyError(t.s))
  {
    match TypeLookup(t)
    case Fail(e) => Err(e)
    case Pass => if t.s == "leadership_assessment" then Ok(LeadershipPdf) else Ok(TalentInsightsPdf)
  }

  /** What a step after the report does. */
  datatype Action =
    | Upload(localFile: Value, bucket: Value, blob: Value)
    | SendEmail(record: EmailRecord)

  const UploadStep := "upload to s3"
  const EmailStep := "send email to candidate"

  /** `steps_after_pdf`: each step with the assessment types it runs for, in order. */
  const StepsAfterPdf: seq<(string, seq<string>)> :=
    [(UploadStep, AssessmentTypes), (EmailStep, ["leadership_assessment"])]

  /** `payload.get(key)`. */
  function GetOrNone(payload: seq<(Key, Value)>, key: string): Value {
    match Get(payload, StrKey(key))
    case Some(v) => v
    case None => VNone
  }

  /** `_upload_to_s3`: reads the file, bucket and object name the handler stored. */
  function UploadAction(payload: seq<(Key, Value)>): (r: Result<Action>)
    ensures r.Ok? <==> forall k :: k in StoredKeys ==> k in Keys(payload)
    ensures r.Ok? ==> r.value == Upload(GetOrNone(payload, "local_file"), GetOrNone(payload, "bucket_name"),
                                        GetOrNone(payload, "blob_name"))
    ensures StrKey("local_file") !in Keys(payload) ==> r == Err(KeyError("local_file"))
  {
    var localFile :- Subscript(VDict(payload), "local_file");
    var bucket :- Subscript(VDict(payload), "bucket_name");
    var blob :- Subscript(VDict(payload), "blob_name");
    Ok(Upload(localFile, bucket, blob))
  }

  /** `_send_email_to_candidate`: a candidate without a (truthy) address gets nothing. */
  function EmailAction(payload: seq<(Key, Value)>, date: string): (r: Result<Option<Action>>)
    ensures !Truthy(GetOrNone(payload, "email")) ==> r == Ok(None)
    ensures Truthy(GetOrNone(payload, "email")) ==>
      (r.Ok? <==> EmailTemplate(payload, date).Ok?) &&
      (r.Ok? ==> r.value == Some(SendEmail(EmailTemplate(payload, date).value)))
  {
    if Truthy(GetOrNone(payload, "email")) then
      var record :- EmailTemplate(payload, date);
      Ok(Some(SendEmail(record)))
    else Ok(None)
  }

  function StepAction(step: string, payload: seq<(Key, Value)>, date: string): Result<Option<Action>> {
    if step == UploadStep then
      var a :- UploadAction(payload);
      Ok(Some(a))
    else EmailAction(payload, date)
  }

  /** The steps as intended, case by case: both assessment types store the report;
      only the leadership one also mails the candidate; any other type does nothing. */
  function IntendedActions(payload: seq<(Key, Value)>, date: string): Result<seq<Action>> {
    var t := GetOrNone(payload, "assessment_type");
    if t == VStr("leadership_assessment") then
      var up :- UploadAction(payload);
      var mail :- EmailAction(payload, date);
      Ok([up] + (if mail.Some? then [mail.value] else []))
    else if t == VStr("talentinsights_assessment") then
      var up :- UploadAction(payload);
      Ok([up])
    else Ok([])
  }

  /** The steps of `steps` that run for assessment type `t`, in order, and the actions
      they take; the first step that raises ends the run. */
  function RunSteps(steps: seq<(string, seq<string>)>, t: Value, payload: seq<(Key, Value)>, date: string): Result<seq<Action>>
    decreases |steps|
  {
    if steps == [] then Ok([])
    else
      var done :- RunSteps(steps[..|steps| - 1], t, payload, date);
      var step := steps[|steps| - 1];
      if t.VStr? && t.s in step.1 then
        var a :- StepAction(step.0, payload, date);
        Ok(done + (if a.Some? then [a.value] else []))
      else Ok(done)
  }

  /** One more step of the table. */
  lemma RunStepsStep(steps: seq<(string, seq<string>)>, i: nat, t: Value, payload: seq<(Key, Value)>, date: string)
    requires i < |steps| && RunSteps(steps[..i], t, payload, date).Ok?
    ensures RunSteps(steps[..i + 1], t, payload, date) ==
      if t.VStr? && t.s in steps[i].1 then
        match StepAction(steps[i].0, payload, date)
        case Err(e) => Err(e)
        case Ok(a) => Ok(RunSteps(steps[..i], t, payload, date).value + (if a.Some? then [a.value] else []))
      else RunSteps(steps[..i], t, payload, date)
  {
    assert steps[..i + 1][..i] == steps[..i];
    assert steps[..i + 1][i] == steps[i];
  }

  /** Step `i` of the table after the first `i` have run: a step that does not run for
      the type or takes no action adds nothing, one that takes an action appends it,
      and one that raises ends the whole run with its error. */
  lemma RunStepsNext(steps: seq<(string, seq<string>)>, i: nat, t: Value, payload: seq<(Key, Value)>, date: string,
                     actions: seq<Action>)
    requires i < |steps| && RunSteps(steps[..i], t, payload, date) == Ok(actions)
    ensures var runs := t.VStr? && t.s in steps[i].1;
      var a := StepAction(steps[i].0, payload, date);
      && (runs && a.Err? ==> RunSteps(steps, t, payload, date) == Err(a.error))
      && (runs && a.Ok? && a.value.Some? ==> RunSteps(steps[..i + 1], t, payload, date) == Ok(actions + [a.value.value]))
      && ((!runs || (a.Ok? && a.value.None?)) ==> RunSteps(steps[..i + 1], t, payload, date) == Ok(actions))
  {
    RunStepsStep(steps, i, t, payload, date);
    var a := StepAction(steps[i].0, payload, date);
    if t.VStr? && t.s in steps[i].1 && a.Err? {
      RunStepsErr(steps, i + 1, t, payload, date);
    } else {
      assert actions + [] == actions;
    }
  }

  /** Running the table is the case-by-case intention. */
  lemma StepsAsIntended(payload: seq<(Key, Value)>, date: string)
    ensures RunSteps(StepsAfterPdf, GetOrNone(payload, "assessment_type"), payload, date) == IntendedActions(payload, date)
  {
    var t := GetOrNone(payload, "assessment_type");
    assert StepsAfterPdf[..0] == [];
    assert StepsAfterPdf[..2] == StepsAfterPdf;
    assert UploadStep != EmailStep by { assert UploadStep[0] != EmailStep[0]; }
    assert RunSteps(StepsAfterPdf[..0], t, payload, date) == Ok([]);
    RunStepsStep(StepsAfterPdf, 0, t, payload, date);
    var up := UploadAction(payload);
    assert StepAction(UploadStep, payload, date) == if up.Ok? then Ok(Some(up.value)) else Err(up.error);
    var r1 := RunSteps(StepsAfterPdf[..1], t, payload, date);
    assert t.VStr? && t.s in AssessmentTypes ==> r1 == match StepAction(UploadStep, payload, date)
        case Err(e) => Err(e)
        case Ok(a) => Ok([] + (if a.Some? then [a.value] else []));
    if t.VStr? && t.s in AssessmentTypes {
      if up.Ok? {
        assert StepAction(UploadStep, payload, date) == Ok(Some(up.value));
        assert [] + [up.value] == [up.value];
        assert r1 == Ok([up.value]);
      } else {
        assert r1 == Err(up.error);
      }
    }
    if r1.Ok? {
      RunStepsStep(StepsAfterPdf, 1, t, payload, date);
    } else {
      RunStepsErr(StepsAfterPdf, 1, t, payload, date);
    }
    assert StepsAfterPdf[0] == (UploadStep, AssessmentTypes);
    assert StepsAfterPdf[1] == (EmailStep, ["leadership_assessment"]);
    if t == VStr("leadership_assessment") {
      assert t.s == AssessmentTypes[0];
    } else if t == VStr("talentinsights_assessment") {
      assert t.s == AssessmentTypes[1];
      assert t.s[0] == 't';
      assert !(t.s in ["leadership_assessment"]);
      if r1.Ok? {
        assert RunSteps(StepsAfterPdf, t, payload, date) == r1;
        assert r1 == Ok([UploadAction(payload).value]);
      }
    } else {
      assert !(t.VStr? && t.s in AssessmentTypes);
    }
  }

  /** `after_pdf_generated`: every step of the table whose types include the payload's
      assessment type runs, in table order; the actions they take are returned. */
  method AfterPdfGenerated(payload: seq<(Key, Value)>, date: string) returns (r: Result<seq<Action>>)
    ensures r == IntendedActions(payload, date)
  {
    var t := GetOrNone(payload, "assessment_type");
    var actions: seq<Action> := [];
    var i := 0;
    while i < |StepsAfterPdf|
      invariant i <= |StepsAfterPdf|
      invariant RunSteps(StepsAfterPdf[..i], t, payload, date) == Ok(actions)
    {
      RunStepsNext(StepsAfterPdf, i, t, payload, date, actions);
      if t.VStr? && t.s in StepsAfterPdf[i].1 {
        var a := StepAction(StepsAfterPdf[i].0, payload, date);
        if a.Err? {
          StepsAsIntended(payload, date);
          return Err(a.error);
        }
        if a.value.Some? {
          actions := actions + [a.value.value];
        }
      }
      i := i + 1;
    }
    assert StepsAfterPdf[..i] == StepsAfterPdf;
    StepsAsIntended(payload, date);
    r := Ok(actions);
  }

  /** Once a prefix of the steps raises, the whole run raises the same error. */
  lemma {:induction false} RunStepsErr(steps: seq<(string, seq<string>)>, n: nat, t: Value, payload: seq<(Key, Value)>, date: string)
    requires n <= |steps| && RunSteps(steps[..n], t, payload, date).Err?
    ensures RunSteps(steps, t, payload, date) == RunSteps(steps[..n], t, payload, date)
    decreases |steps| - n
  {
    if n < |steps| {
      assert steps[..n + 1][..n] == steps[..n];
      RunStepsErr(steps, n + 1, t, payload, date);
    } else {
      assert steps[..n] == steps;
    }
  }

  /** A candidate is mailed only after a leadership assessment, only with a truthy
      address, and only once the report has been stored. */
  lemma EmailOnlyForLeadership(payload: seq<(Key, Value)>, date: string, a: Action)
    requires IntendedActions(payload, date).Ok? && a in IntendedActions(payload, date).value && a.SendEmail?
    ensures GetOrNone(payload, "assessment_type") == VStr("leadership_assessment")
    ensures Truthy(GetOrNone(payload, "email"))
    ensures IntendedActions(payload, date).value[0].Upload?
    ensures a.record == EmailTemplate(payload, date).value
  {
    var t := GetOrNone(payload, "assessment_type");
    var acts := IntendedActions(payload, date).value;
    IntendedActionsShape(payload, date);
    assert acts[0].Upload?;
    assert t == VStr("leadership_assessment") && |acts| == 2 by {
      assert a != acts[0];
    }
    SecondOfTwo(acts, a);
  }

  /** In a list of two, anything that is not the first is the second. */
  lemma SecondOfTwo(acts: seq<Action>, a: Action)
    requires |acts| == 2 && a in acts && a != acts[0]
    ensures a == acts[1]
  {
  }

  /** The actions are the upload first, then the e-mail when the type is leadership's
      and the payload has an address. */
  lemma IntendedActionsShape(payload: seq<(Key, Value)>, date: string)
    requires IntendedActions(payload, date).Ok?
    ensures var t := GetOrNone(payload, "assessment_type");
      var acts := IntendedActions(payload, date).value;
      && (t.VStr? && t.s in AssessmentTypes ==> |acts| >= 1 && acts[0] == UploadAction(payload).value && UploadAction(payload).Ok?)
      && (|acts| > 1 <==> t == VStr("leadership_assessment") && Truthy(GetOrNone(payload, "email")))
      && (|acts| > 1 ==> |acts| == 2 && EmailTemplate(payload, date).Ok?
                         && acts[1] == SendEmail(EmailTemplate(payload, date).value))
      && (acts != [] <==> t.VStr? && t.s in AssessmentTypes)
  {
    var t := GetOrNone(payload, "assessment_type");
    assert t.VStr? && t.s in AssessmentTypes <==> t == VStr("leadership_assessment") || t == VStr("talentinsights_assessment");
  }

  /** Both assessment types store the report with what the handler put in the payload. */
  lemma UploadForBothTypes(payload: seq<(Key, Value)>, date: string)
    requires GetOrNone(payload, "assessment_type").VStr?
    requires GetOrNone(payload, "assessment_type").s in AssessmentTypes
    requires IntendedActions(payload, date).Ok?
    ensures |IntendedActions(payload, date).value| >= 1
    ensures IntendedActions(payload, date).value[0] ==
      Upload(GetOrNone(payload, "local_file"), GetOrNone(payload, "bucket_name"), GetOrNone(payload, "blob_name"))
  {
    var t := GetOrNone(payload, "assessment_type");
    assert t == VStr("leadership_assessment") || t == VStr("talentinsights_assessment");
  }

  // ---------------------------------------------------------------------------------
  // The handler.

  /** `{"R1": 40, "R2": 60, "S": 0}`. */
  const DefaultJobFitment := VDict([(StrKey("R1"), VInt(40)), (StrKey("R2"), VInt(60)), (StrKey("S"), VInt(0))])

  /** The candidate profile the handler builds. */
  function Profile(name: Value, company: Value, userId: Value, videoId: Value, referenceNo: Value): seq<(Key, Value)> {
    [(StrKey("name"), name), (StrKey("company"), company), (StrKey("user_id"), userId),
     (StrKey("video_id"), videoId), (StrKey("reference_no"), referenceNo)]
  }

  /** The profile has one entry per field. */
  lemma ProfileGet(name: Value, company: Value, userId: Value, videoId: Value, referenceNo: Value)
    ensures NoDupKeys(Profile(name, company, userId, videoId, referenceNo))
    ensures Get(Profile(name, company, userId, videoId, referenceNo), StrKey("name")) == Some(name)
    ensures Get(Profile(name, company, userId, videoId, referenceNo), StrKey("company")) == Some(company)
    ensures Get(Profile(name, company, userId, videoId, referenceNo), StrKey("user_id")) == Some(userId)
    ensures Get(Profile(name, company, userId, videoId, referenceNo), StrKey("video_id")) == Some(videoId)
  {
    var c := Profile(name, company, userId, videoId, referenceNo);
    var ks := Keys(c);
    assert forall i, j :: 0 <= i < j < |ks| ==> ks[i].s[0] != ks[j].s[0];
    GetIffStored(c, StrKey("name"), name);
    GetIffStored(c, StrKey("company"), company);
    assert c[2] == (StrKey("user_id"), userId);
    GetIffStored(c, StrKey("user_id"), userId);
    assert c[3] == (StrKey("video_id"), videoId);
    GetIffStored(c, StrKey("video_id"), videoId);
  }

  /** `{"skill_scores": scores, "Candidate": profile, **videoData, "Job Fitment": jobFitment}`:
      later entries of the display override earlier ones. */
  function Merged(scores: Value, profile: Value, videoData: seq<(Key, Value)>, jobFitment: Value): seq<(Key, Value)> {
    Set(Update([(StrKey("skill_scores"), scores), (StrKey("Candidate"), profile)], videoData),
        StrKey("Job Fitment"), jobFitment)
  }

  /** In the merged payload `Job Fitment` always wins, a key of the video data comes
      next, and the handler's own two entries hold only where the video data is silent. */
  lemma MergedGet(scores: Value, profile: Value, videoData: seq<(Key, Value)>, jobFitment: Value, k: Key)
    requires NoDupKeys(videoData)
    ensures NoDupKeys(Merged(scores, profile, videoData, jobFitment))
    ensures Get(Merged(scores, profile, videoData, jobFitment), k) == MergedValue(scores, profile, videoData, jobFitment, k)
  {
    var base := [(StrKey("skill_scores"), scores), (StrKey("Candidate"), profile)];
    assert Keys(base) == [StrKey("skill_scores"), StrKey("Candidate")];
    UpdateGet(base, videoData, k);
    GetSet(Update(base, videoData), StrKey("Job Fitment"), jobFitment, k);
  }

  /** `MergedGet`, key by key. */
  lemma MergedFacts(scores: Value, profile: Value, videoData: seq<(Key, Value)>, jobFitment: Value)
    requires NoDupKeys(videoData)
    ensures var m := Merged(scores, profile, videoData, jobFitment);
      && NoDupKeys(m)
      && Get(m, StrKey("Job Fitment")) == Some(jobFitment)
      && (forall k :: k in Keys(videoData) && k != StrKey("Job Fitment") ==> Get(m, k) == Get(videoData, k))
      && (StrKey("Candidate") !in Keys(videoData) ==> Get(m, StrKey("Candidate")) == Some(profile))
      && (StrKey("skill_scores") !in Keys(videoData) ==> Get(m, StrKey("skill_scores")) == Some(scores))
      && (forall k :: k !in Keys(videoData) && k !in MergedKeys ==> Get(m, k) == None)
  {
    MergedGet(scores, profile, videoData, jobFitment, StrKey("Job Fitment"));
    MergedGet(scores, profile, videoData, jobFitment, StrKey("Candidate"));
    MergedGet(scores, profile, videoData, jobFitment, StrKey("skill_scores"));
    MergedOverridden(scores, profile, videoData, jobFitment);
    MergedAbsent(scores, profile, videoData, jobFitment);
  }

  lemma MergedOverridden(scores: Value, profile: Value, videoData: seq<(Key, Value)>, jobFitment: Value)
    requires NoDupKeys(videoData)
    ensures forall k :: k in Keys(videoData) && k != StrKey("Job Fitment") ==>
      Get(Merged(scores, profile, videoData, jobFitment), k) == Get(videoData, k)
  {
    forall k | k in Keys(videoData) && k != StrKey("Job Fitment")
      ensures Get(Merged(scores, profile, videoData, jobFitment), k) == Get(videoData, k)
    {
      MergedGet(scores, profile, videoData, jobFitment, k);
    }
  }

  lemma MergedAbsent(scores: Value, profile: Value, videoData: seq<(Key, Value)>, jobFitment: Value)
    requires NoDupKeys(videoData)
    ensures forall k :: k !in Keys(videoData) && k !in MergedKeys ==>
      Get(Merged(scores, profile, videoData, jobFitment), k) == None
  {
    forall k | k !in Keys(videoData) && k !in MergedKeys
      ensures Get(Merged(scores, profile, videoData, jobFitment), k) == None
    {
      MergedGet(scores, profile, videoData, jobFitment, k);
    }
  }

  function MergedValue(scores: Value, profile: Value, videoData: seq<(Key, Value)>, jobFitment: Value, k: Key): Option<Value> {
    if k == StrKey("Job Fitment") then Some(jobFitment)
    else if k in Keys(videoData) then Get(videoData, k)
    else if k == StrKey("skill_scores") then Some(scores)
    else if k == StrKey("Candidate") then Some(profile)
    else None
  }

  /** `data.get("video_data")`. */
  function VideoData(data: seq<(Key, Value)>): Value {
    GetOrNone(data, "video_data")
  }

  /** The candidate profile the handler builds from the message and its video data. */
  function CandidateProfile(data: seq<(Key, Value)>): Value
    requires VideoData(data).VDict?
  {
    var vd := VideoData(data);
    VDict(Profile(GetOr(vd, "name", VStr("undefined")).value, GetOr(vd, "company_name", VStr("")).value,
                  GetOrNone(data, "user_id"), GetOrNone(data, "video_id"), GetOrNone(data, "reference_no")))
  }

  const MergedKeys := [StrKey("Job Fitment"), StrKey("Candidate"), StrKey("skill_scores")]

  /** The report payload the handler builds from a message: `video_data.get` raises
      unless the video data is a dictionary. Its entries override the handler's
      `skill_scores` and `Candidate`, and `Job Fitment` overrides them. */
  function MergedPayload(data: seq<(Key, Value)>): (r: Result<seq<(Key, Value)>>)
    requires VideoData(data).VDict? ==> NoDupKeys(VideoData(data).entries)
    ensures r.Ok? <==> VideoData(data).VDict?
    ensures r.Err? ==> r.error.AttributeError?
    ensures r.Ok? ==>
      var vd := VideoData(data);
      && NoDupKeys(r.value)
      && Get(r.value, StrKey("Job Fitment")) == Some(GetOr(vd, "job_fitment", DefaultJobFitment).value)
      && (forall k :: k in Keys(vd.entries) && k != StrKey("Job Fitment") ==> Get(r.value, k) == Get(vd.entries, k))
      && (StrKey("Candidate") !in Keys(vd.entries) ==> Get(r.value, StrKey("Candidate")) == Some(CandidateProfile(data)))
      && (StrKey("skill_scores") !in Keys(vd.entries) ==>
            Get(r.value, StrKey("skill_scores")) == Some(GetOr(vd, "recruiter_skills", VDict([])).value))
      && (forall k :: k !in Keys(vd.entries) && k !in MergedKeys ==> Get(r.value, k) == None)
  {
    var vd := VideoData(data);
    var name :- GetOr(vd, "name", VStr("undefined"));
    var jobFitment := GetOr(vd, "job_fitment", DefaultJobFitment).value;
    var scores := GetOr(vd, "recruiter_skills", VDict([])).value;
    MergedFacts(scores, CandidateProfile(data), vd.entries, jobFitment);
    Ok(Merged(scores, CandidateProfile(data), vd.entries, jobFitment))
  }

  /** `f"{user_id}/{video_id}.pdf"`. */
  function BlobName(userId: Value, videoId: Value): string {
    Str(userId) + "/" + Str(videoId) + ".pdf"
  }

  const StoredKeys := [StrKey("local_file"), StrKey("bucket_name"), StrKey("blob_name")]

  /** The three entries the handler stores once the report is made; nothing else changes. */
  function Stored(payload: seq<(Key, Value)>, reportFile: string, userId: Value, videoId: Value): (r: seq<(Key, Value)>)
    requires NoDupKeys(payload)
    ensures NoDupKeys(r)
    ensures Get(r, StrKey("local_file")) == Some(VStr(reportFile))
    ensures Get(r, StrKey("bucket_name")) == Some(VStr(PdfBucket))
    ensures Get(r, StrKey("blob_name")) == Some(VStr(BlobName(userId, videoId)))
    ensures forall k :: k !in StoredKeys ==> Get(r, k) == Get(payload, k)
  {
    StoredKeysDistinct();
    var p1 := Store(payload, "local_file", VStr(reportFile));
    var p2 := Store(p1, "bucket_name", VStr(PdfBucket));
    Store(p2, "blob_name", VStr(BlobName(userId, videoId)))
  }

  lemma StoredKeysDistinct()
    ensures StrKey("local_file") != StrKey("bucket_name") && StrKey("local_file") != StrKey("blob_name")
    ensures StrKey("bucket_name") != StrKey("blob_name")
    ensures forall k :: k !in StoredKeys <==>
      k != StrKey("local_file") && k != StrKey("bucket_name") && k != StrKey("blob_name")
  {
    assert "local_file"[0] != "bucket_name"[0] && "local_file"[0] != "blob_name"[0];
    assert "bucket_name"[1] != "blob_name"[1];
  }

  /** `named` is the candidate `c` with `company_name` set to its `company`, or to the
      empty string without one. */
  ghost predicate CompanyNamed(named: seq<(Key, Value)>, c: seq<(Key, Value)>) {
    && Get(named, StrKey("company_name")) ==
         Some(if StrKey("company") in Keys(c) then Get(c, StrKey("company")).value else VStr(""))
    && forall k :: k != StrKey("company_name") ==> Get(named, k) == Get(c, k)
  }

  /** The handler's payload once the report has run. The report is given
      `payload.copy()`, a shallow copy, so the candidate dictionary is the handler's own,
      and both reports store the candidate's `company` into it as `company_name`
      (talentinsights_pdf_report.py:116, leadership_pdf_report.py:208-212). Without a
      `company` the talent-insights report stores the empty string and the leadership
      report raises; a report that raises is outside this model. The copy's own
      entries, which the talent-insights report pops, are not the handler's. */
  function ReportedPayload(payload: seq<(Key, Value)>): (r: seq<(Key, Value)>)
    requires NoDupKeys(payload)
    ensures NoDupKeys(r)
    ensures forall k :: k != StrKey("Candidate") ==> Get(r, k) == Get(payload, k)
    ensures
      var c := Get(payload, StrKey("Candidate"));
      if c.Some? && c.value.VDict? then
        var named := Get(r, StrKey("Candidate"));
        && named.Some? && named.value.VDict?
        && (NoDupKeys(c.value.entries) ==> NoDupKeys(named.value.entries) && CompanyNamed(named.value.entries, c.value.entries))
      else r == payload
  {
    var c := Get(payload, StrKey("Candidate"));
    if c.Some? && c.value.VDict? then
      NamedCandidate(c.value);
      Store(payload, "Candidate", VDict(TalentInsightsReport.CandidateProfile(c.value).value))
    else payload
  }

  lemma NamedCandidate(c: Value)
    requires c.VDict?
    ensures NoDupKeys(c.entries) ==>
      var named := TalentInsightsReport.CandidateProfile(c).value;
      NoDupKeys(named) && CompanyNamed(named, c.entries)
  {
    if NoDupKeys(c.entries) {
      var named := TalentInsightsReport.CandidateProfile(c).value;
      forall k | k != StrKey("company_name") ensures Get(named, k) == Get(c.entries, k) {
        TalentInsightsReport.CandidateProfileFields(c, k);
      }
      TalentInsightsReport.CandidateProfileFields(c, StrKey("company_name"));
    }
  }

  /** The outcome of the handler: nothing is generated without a user id; otherwise
      the report chosen, the payload as finally updated, the actions of the follow-up
      steps, and the reply text. */
  datatype Handled =
    | NoUserId(reply: string)
    | Generated(report: Report, payload: seq<(Key, Value)>, actions: seq<Action>, reply: string)

  function Reply(userId: Value, videoId: Value, reportFile: string): string {
    "pdf generated for user_id - " + Str(userId) + " video_id - " + Str(videoId) + "   " + reportFile
  }

  /** `handler` on an already decoded message. The report generator is called outside
      this model: `reportFile` is the path it returns. The steps run in the handler's
      order, and the first that raises decides the error. */
  method Handler(data: Value, reportFile: string, date: string) returns (r: Result<Handled>)
    requires data.VDict? && VideoData(data.entries).VDict? ==> NoDupKeys(VideoData(data.entries).entries)
    ensures !data.VDict? ==> r.Err? && r.error.AttributeError?
    ensures data.VDict? && !Truthy(GetOrNone(data.entries, "user_id")) ==> r == Ok(NoUserId("no user id given"))
    ensures data.VDict? && Truthy(GetOrNone(data.entries, "user_id")) ==>
      var d := data.entries;
      if MergedPayload(d).Err? then r == Err(MergedPayload(d).error)
      else
        var report := PdfFor(GetOrNone(VideoData(d).entries, "assessment_type"));
        if report.Err? then r == Err(report.error)
        else
          var p := Stored(ReportedPayload(MergedPayload(d).value), reportFile, GetOrNone(d, "user_id"), GetOrNone(d, "video_id"));
          var actions := IntendedActions(p, date);
          if actions.Err? then r == Err(actions.error)
          else r == Ok(Generated(report.value, p, actions.value,
                                 Reply(GetOrNone(d, "user_id"), GetOrNone(d, "video_id"), reportFile)))
  {
    var userIdR := GetOr(data, "user_id", VNone);
    if userIdR.Err? {
      return Err(userIdR.error);
    }
    var userId := userIdR.value;
    if !Truthy(userId) {
      return Ok(NoUserId("no user id given"));
    }
    var videoId := GetOrNone(data.entries, "video_id");
    var payload :- MergedPayload(data.entries);
    AssessmentTypeSurvives(data.entries);
    var t := GetOrNone(payload, "assessment_type");
    var report :- PdfFor(t);
    payload := ReportedPayload(payload);
    payload := Stored(payload, reportFile, userId, videoId);
    var actions :- AfterPdfGenerated(payload, date);
    r := Ok(Generated(report, payload, actions, Reply(userId, videoId, reportFile)));
  }

  /** The report is chosen by the assessment type of the video data. */
  lemma AssessmentTypeSurvives(data: seq<(Key, Value)>)
    requires VideoData(data).VDict? && NoDupKeys(VideoData(data).entries)
    ensures GetOrNone(MergedPayload(data).value, "assessment_type") == GetOrNone(VideoData(data).entries, "assessment_type")
  {
    assert StrKey("assessment_type") !in MergedKeys;
  }

  /** What the follow-up steps see of the message: the stored report, the job fitment,
      every key of the video data the handler does not write itself, and, unless the
      video data brings a candidate, the handler's own profile with the `company_name`
      the report stored into it, which is the video data's `company_name`. */
  lemma HandlerPayload(data: seq<(Key, Value)>, reportFile: string, k: Key)
    requires VideoData(data).VDict? && NoDupKeys(VideoData(data).entries)
    ensures
      var vd := VideoData(data);
      var p := Stored(ReportedPayload(MergedPayload(data).value), reportFile, GetOrNone(data, "user_id"), GetOrNone(data, "video_id"));
      && Get(p, StrKey("blob_name")) == Some(VStr(BlobName(GetOrNone(data, "user_id"), GetOrNone(data, "video_id"))))
      && Get(p, StrKey("Job Fitment")) == Some(GetOr(vd, "job_fitment", DefaultJobFitment).value)
      && (k in Keys(vd.entries) && k !in HandlerKeys && k != StrKey("Candidate") ==> Get(p, k) == Get(vd.entries, k))
      && (StrKey("Candidate") !in Keys(vd.entries) ==>
            Get(p, StrKey("Candidate")) ==
              Some(VDict(Set(CandidateProfile(data).entries, StrKey("company_name"), GetOr(vd, "company_name", VStr("")).value))))
  {
    assert StrKey("Job Fitment") !in StoredKeys;
    assert StrKey("Candidate") !in StoredKeys;
    var vd := VideoData(data);
    if StrKey("Candidate") !in Keys(vd.entries) {
      var c := CandidateProfile(data);
      ProfileGet(GetOr(vd, "name", VStr("undefined")).value, GetOr(vd, "company_name", VStr("")).value,
                 GetOrNone(data, "user_id"), GetOrNone(data, "video_id"), GetOrNone(data, "reference_no"));
      assert TalentInsightsReport.CandidateProfile(c).value ==
        Set(c.entries, StrKey("company_name"), GetOr(vd, "company_name", VStr("")).value);
    }
  }

  /** The keys the handler writes itself: `Job Fitment` in the display, and the three
      entries stored after the report is made. */
  const HandlerKeys := [StrKey("Job Fitment")] + StoredKeys

  /** The object the e-mail attaches is the report the handler stored, when the
      candidate is the handler's own profile and the ids are strings. */
  lemma EmailAttachesStoredPdf(data: seq<(Key, Value)>, reportFile: string, date: string, userId: string, videoId: string)
    requires VideoData(data).VDict? && NoDupKeys(VideoData(data).entries)
    requires StrKey("Candidate") !in Keys(VideoData(data).entries)
    requires GetOrNone(data, "user_id") == VStr(userId) && GetOrNone(data, "video_id") == VStr(videoId)
    ensures
      var p := Stored(ReportedPayload(MergedPayload(data).value), reportFile, VStr(userId), VStr(videoId));
      EmailTemplate(p, date).Ok? ==>
        EmailTemplate(p, date).value.attachments[0].objectKey == Get(p, StrKey("blob_name")).value.s
  {
    var vd := VideoData(data);
    HandlerPayload(data, reportFile, StrKey("Candidate"));
    var c := CandidateProfile(data).entries;
    var company := GetOr(vd, "company_name", VStr("")).value;
    ProfileGet(GetOr(vd, "name", VStr("undefined")).value, company,
               VStr(userId), VStr(videoId), GetOrNone(data, "reference_no"));
    GetSet(c, StrKey("company_name"), company, StrKey("user_id"));
    GetSet(c, StrKey("company_name"), company, StrKey("video_id"));
  }
}
