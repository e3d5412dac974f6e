/**
 * The employer dashboard: validating and posting a job, the digits-only pay field, and
 * accepting or rejecting an application in the per-job lists.
 */
module EmployerDashboard {
  import opened Common
  import opened JsText
  import opened Jobs

  /** The "post a job" form, as typed. */
  datatype JobForm = JobForm(title: string, description: string, location: string, pay: string, workerType: string)

  function BlankJobForm(): JobForm {
    JobForm("", "", "", "", "")
  }

  /** The object inserted into `jobs`: trimmed text and the parsed pay (`None` for NaN). */
  datatype JobData = JobData(
    title: string,
    description: string,
    location: string,
    workerType: string,
    pay: Option<int>,
    employerId: string)

  function JobDataOf(f: JobForm, employerId: string): JobData {
    JobData(Trim(f.title), Trim(f.description), Trim(f.location), Trim(f.workerType), ParseInt(Trim(f.pay)), employerId)
  }

  const FillAllFields := "Please fill in all fields"
  const InvalidPay := "Please enter a valid pay amount"

  /** The checks of `handlePostJob`: every trimmed text field present, then a positive pay. */
  function ValidateJob(f: JobForm, employerId: string): (r: Result<JobData>)
    ensures r.Ok? <==>
      && Trim(f.title) != "" && Trim(f.description) != "" && Trim(f.location) != "" && Trim(f.workerType) != ""
      && ParseInt(Trim(f.pay)).Some? && ParseInt(Trim(f.pay)).value > 0
    ensures r.Ok? ==> r.value == JobDataOf(f, employerId) && r.value.pay.Some? && r.value.pay.value > 0
    ensures r.Err? ==> r.error == (if AllSpace(f.title) || AllSpace(f.description) || AllSpace(f.location) || AllSpace(f.workerType) then FillAllFields else InvalidPay)
  {
    TrimSpec(f.title);
    TrimSpec(f.description);
    TrimSpec(f.location);
    TrimSpec(f.workerType);
    var d := JobDataOf(f, employerId);
    if d.title == "" || d.description == "" || d.location == "" || d.workerType == "" then Err(FillAllFields)
    else if d.pay.None? || d.pay.value <= 0 then Err(InvalidPay)
    else Ok(d)
  }

  /** The job as the store returns it after the insert. */
  function PostedJob(d: JobData, id: string): (j: Job)
    requires d.pay.Some?
    ensures j.id == id && j.employerId == d.employerId && j.pay == d.pay.value
    ensures j.title == d.title && j.description == d.description && j.location == d.location && j.workerType == d.workerType
  {
    Job(id, d.title, d.description, d.location, d.pay.value, d.workerType, d.employerId)
  }

  function FormOf(j: Job): JobForm {
    JobForm(j.title, j.description, j.location, IntToString(j.pay), j.workerType)
  }

  /** Posting stores trimmed text, so filling the form with a posted job's fields validates
      to exactly the data that was posted. */
  lemma RepostValidatesToSameData(f: JobForm, employerId: string, id: string)
    requires ValidateJob(f, employerId).Ok?
    ensures var d := ValidateJob(f, employerId).value;
      ValidateJob(FormOf(PostedJob(d, id)), employerId) == Ok(d)
  {
    var d := ValidateJob(f, employerId).value;
    var g := FormOf(PostedJob(d, id));
    TrimIdempotent(f.title);
    TrimIdempotent(f.description);
    TrimIdempotent(f.location);
    TrimIdempotent(f.workerType);
    IntToStringRoundTrip(d.pay.value);
    NoSpaceInIntString(d.pay.value);
    var s := IntToString(d.pay.value);
    assert TrimStart(s) == s;
    assert TrimEnd(s) == s;
    assert Trim(g.pay) == s;
    assert JobDataOf(g, employerId) == d;
  }

  /** The pay field's `onChange`: only the empty string or a run of ASCII digits is taken. */
  predicate PayFilterAccepts(value: string) {
    value == "" || IsDigitString(value)
  }

  /** A pay that passed the field filter parses as its digits; an empty one is NaN. */
  lemma FilteredPayParses(pay: string)
    requires PayFilterAccepts(pay)
    ensures pay == "" ==> ParseInt(Trim(pay)).None?
    ensures pay != "" ==> ParseInt(Trim(pay)) == Some(DigitsValue(pay))
  {
    if pay != "" {
      assert TrimStart(pay) == pay;
      assert TrimEnd(pay) == pay;
      ParseIntDigits(pay);
    }
  }

  /** `app.id === applicationId ? { ...app, status } : app` over one job's list. */
  function SetStatus(apps: seq<Application>, applicationId: string, status: ApplicationStatus): (r: seq<Application>)
    ensures |r| == |apps|
    ensures forall k :: 0 <= k < |apps| ==>
      && r[k].id == apps[k].id && r[k].jobId == apps[k].jobId && r[k].workerId == apps[k].workerId
      && r[k].status == (if apps[k].id == applicationId then status else apps[k].status)
  {
    seq(|apps|, k requires 0 <= k < |apps| => if apps[k].id == applicationId then apps[k].(status := status) else apps[k])
  }

  /** The per-job lists after an update: only the named job's list changes. A job id without a
      list leaves the map as it is. */
  function UpdateApplications(m: map<string, seq<Application>>, jobId: string, applicationId: string, status: ApplicationStatus): (r: map<string, seq<Application>>)
    ensures r.Keys == m.Keys
    ensures forall j :: j in m && j != jobId ==> r[j] == m[j]
    ensures jobId in m ==> r[jobId] == SetStatus(m[jobId], applicationId, status)
  {
    if jobId in m then m[jobId := SetStatus(m[jobId], applicationId, status)] else m
  }

  /** Setting the same status twice is the same as setting it once, and an update with the
      status an application already has changes nothing. */
  lemma SetStatusIdempotent(apps: seq<Application>, applicationId: string, status: ApplicationStatus)
    ensures SetStatus(SetStatus(apps, applicationId, status), applicationId, status) == SetStatus(apps, applicationId, status)
    ensures (forall k :: 0 <= k < |apps| && apps[k].id == applicationId ==> apps[k].status == status) ==>
      SetStatus(apps, applicationId, status) == apps
  {
  }

  /** What `handlePostJob` reports. */
  datatype PostOutcome = Ignored | Rejected(message: string) | Posted | Failed

  class Dashboard {
    const employerId: string
    var jobs: seq<Job>
    var applications: map<string, seq<Application>>
    var postingJob: bool
    var updatingApplication: Option<string>
    var showPostJob: bool
    var newJob: JobForm

    constructor (employerId: string, jobs: seq<Job>, applications: map<string, seq<Application>>)
      ensures this.employerId == employerId && this.jobs == jobs && this.applications == applications
      ensures !postingJob && updatingApplication == None && !showPostJob && newJob == BlankJobForm()
    {
      this.employerId := employerId;
      this.jobs := jobs;
      this.applications := applications;
      postingJob := false;
      updatingApplication := None;
      showPostJob := false;
      newJob := BlankJobForm();
    }

    /** The pay field's `onChange`. */
    method PayChanged(value: string)
      modifies this`newJob
      ensures newJob == if PayFilterAccepts(value) then old(newJob).(pay := value) else old(newJob)
    {
      if PayFilterAccepts(value) {
        newJob := newJob.(pay := value);
      }
    }

    /** `handlePostJob`: ignored while a post is in flight; rejected, with nothing changed, when
        validation fails; otherwise the dashboard is marked as posting and, if the insert
        succeeds, the new job is put first, the form closed and cleared. */
    method PostJob(newId: string, insertFails: bool) returns (outcome: PostOutcome)
      modifies this`jobs, this`postingJob, this`showPostJob, this`newJob
      ensures old(postingJob) ==> outcome == Ignored && unchanged(this)
      ensures !old(postingJob) && ValidateJob(old(newJob), employerId).Err? ==>
        outcome == Rejected(ValidateJob(old(newJob), employerId).error) && unchanged(this)
      ensures !old(postingJob) && ValidateJob(old(newJob), employerId).Ok? ==> postingJob
      ensures !old(postingJob) && ValidateJob(old(newJob), employerId).Ok? && insertFails ==>
        outcome == Failed && jobs == old(jobs) && newJob == old(newJob) && showPostJob == old(showPostJob)
      ensures !old(postingJob) && ValidateJob(old(newJob), employerId).Ok? && !insertFails ==>
        && outcome == Posted
        && jobs == [PostedJob(ValidateJob(old(newJob), employerId).value, newId)] + old(jobs)
        && newJob == BlankJobForm() && !showPostJob
    {
      if postingJob {
        return Ignored;
      }
      var checked := ValidateJob(newJob, employerId);
      if checked.Err? {
        return Rejected(checked.error);
      }
      outcome := Insert(checked.value, newId, insertFails);
    }

    /** The part of `handlePostJob` after validation: mark the post in flight, then insert. */
    method Insert(d: JobData, newId: string, insertFails: bool) returns (outcome: PostOutcome)
      requires d.pay.Some?
      modifies this`jobs, this`postingJob, this`showPostJob, this`newJob
      ensures postingJob
      ensures insertFails ==> outcome == Failed && jobs == old(jobs) && newJob == old(newJob) && showPostJob == old(showPostJob)
      ensures !insertFails ==>
        && outcome == Posted
        && jobs == [PostedJob(d, newId)] + old(jobs)
        && newJob == BlankJobForm() && !showPostJob
    {
      postingJob := true;
      if insertFails {
        return Failed;
      }
      jobs := [PostedJob(d, newId)] + jobs;
      showPostJob := false;
      newJob := BlankJobForm();
      outcome := Posted;
    }

    /** The deferred reset in the `finally` block of `handlePostJob`. */
    method PostTimerFired()
      modifies this`postingJob
      ensures !postingJob
    {
      postingJob := false;
    }

    /** `handleApplicationStatus`: a second update of the application being updated is ignored;
        otherwise it is marked as updating and, when the store accepts the update, the
        application's status changes in its job's list. */
    method UpdateApplicationStatus(applicationId: string, jobId: string, status: ApplicationStatus, fails: bool)
      modifies this`applications, this`updatingApplication
      ensures old(updatingApplication) == Some(applicationId) ==> unchanged(this)
      ensures old(updatingApplication) != Some(applicationId) ==>
        && updatingApplication == Some(applicationId)
        && applications == if fails then old(applications) else UpdateApplications(old(applications), jobId, applicationId, status)
    {
      if updatingApplication == Some(applicationId) {
        return;
      }
      updatingApplication := Some(applicationId);
      if !fails {
        applications := UpdateApplications(applications, jobId, applicationId, status);
      }
    }

    /** The deferred reset in the `finally` block of `handleApplicationStatus`. */
    method UpdateTimerFired()
      modifies this`updatingApplication
      ensures updatingApplication == None
    {
      updatingApplication := None;
    }
  }
}
