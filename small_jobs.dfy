/** The small-jobs card: an in-memory list of jobs that can be added, deleted
    and moved between three statuses. */
module SmallJobsSection {
  import opened Options
  import opened Seqs
  import Js

  /** The three statuses a job can have. */
  datatype Status = Pending | InProgress | Completed

  /** A job; `createdAt` is the clock reading taken when it was added. */
  datatype SmallJob = SmallJob(id: string, title: string, orderNumber: Option<string>, status: Status, createdAt: int)

  /** The add-job dialog's form. */
  datatype JobDraft = JobDraft(title: string, orderNumber: string)

  const EmptyDraft := JobDraft("", "")

  /** The value each status has in the status selector. */
  function StatusKey(s: Status): string
  {
    match s
    case Pending => "pending"
    case InProgress => "in-progress"
    case Completed => "completed"
  }

  function StatusOfKey(key: string): (r: Option<Status>)
    ensures r.Some? ==> StatusKey(r.value) == key
  {
    if key == "pending" then Some(Pending)
    else if key == "in-progress" then Some(InProgress)
    else if key == "completed" then Some(Completed)
    else None
  }

  /** Every status can be chosen from the selector, and its value names it alone. */
  lemma StatusKeyRoundTrip(s: Status)
    ensures StatusOfKey(StatusKey(s)) == Some(s)
  {
    match s
    case Pending =>
    case InProgress => assert StatusKey(s) != "pending";
    case Completed => assert StatusKey(s) != "pending" && StatusKey(s) != "in-progress";
  }

  /** `getStatusColor`: the badge classes for each status. */
  function StatusColor(s: Status): (c: string)
    ensures c != "bg-gray-100 text-gray-800"
  {
    match s
    case Pending => "bg-yellow-100 text-yellow-800"
    case InProgress => "bg-blue-100 text-blue-800"
    case Completed => "bg-green-100 text-green-800"
  }

  /** Different statuses get different badge colours. */
  lemma StatusColorInjective(s: Status, t: Status)
    ensures StatusColor(s) == StatusColor(t) <==> s == t
  {
    if s != t {
      assert StatusColor(s)[3] != StatusColor(t)[3];
    }
  }

  /** The job `handleAddJob` creates from the draft: the title as typed, no order
      number when the draft has none, status pending. */
  function NewJob(draft: JobDraft, id: string, now: int): (job: SmallJob)
    ensures job.id == id && job.title == draft.title && job.status == Pending && job.createdAt == now
    ensures job.orderNumber.None? <==> draft.orderNumber == []
    ensures job.orderNumber.Some? ==> job.orderNumber.value == draft.orderNumber
  {
    SmallJob(id, draft.title, if draft.orderNumber == [] then None else Some(draft.orderNumber), Pending, now)
  }

  function OtherJob(id: string): SmallJob -> bool
  {
    (job: SmallJob) => job.id != id
  }

  /** `smallJobs.filter(job => job.id !== jobId)`. */
  function WithoutJob(jobs: seq<SmallJob>, id: string): (r: seq<SmallJob>)
    ensures forall i :: 0 <= i < |r| ==> r[i].id != id
    ensures |r| <= |jobs|
  {
    Filter(jobs, OtherJob(id))
  }

  /** Deleting removes exactly the jobs with that id, keeps the rest in order,
      and leaves the list alone when no job has the id. */
  lemma WithoutJobProperties(jobs: seq<SmallJob>, id: string)
    ensures forall job :: job in WithoutJob(jobs, id) <==> job in jobs && job.id != id
    ensures IsSubsequence(WithoutJob(jobs, id), jobs)
    ensures forall job :: multiset(WithoutJob(jobs, id))[job] == if job.id != id then multiset(jobs)[job] else 0
    ensures (forall i :: 0 <= i < |jobs| ==> jobs[i].id != id) ==> WithoutJob(jobs, id) == jobs
  {
    forall job ensures job in WithoutJob(jobs, id) <==> job in jobs && job.id != id {
      FilterMembership(jobs, OtherJob(id), job);
    }
    forall job ensures multiset(WithoutJob(jobs, id))[job] == if job.id != id then multiset(jobs)[job] else 0 {
      FilterMultiplicity(jobs, OtherJob(id), job);
    }
    FilterIsSubsequence(jobs, OtherJob(id));
    FilterExtremes(jobs, OtherJob(id));
  }

  /** `smallJobs.map(job => job.id === jobId ? { ...job, status } : job)`: the jobs
      with that id take the new status; everything else stays as it was. */
  function WithStatus(jobs: seq<SmallJob>, id: string, status: Status): (r: seq<SmallJob>)
    ensures |r| == |jobs|
    ensures forall i :: 0 <= i < |r| ==>
      r[i].id == jobs[i].id && r[i].title == jobs[i].title && r[i].orderNumber == jobs[i].orderNumber
      && r[i].createdAt == jobs[i].createdAt
      && r[i].status == if jobs[i].id == id then status else jobs[i].status
  {
    seq(|jobs|, i requires 0 <= i < |jobs| => if jobs[i].id == id then jobs[i].(status := status) else jobs[i])
  }

  /** Any status can move to any other, and setting a status twice is the same as once. */
  lemma WithStatusLastWins(jobs: seq<SmallJob>, id: string, s: Status, t: Status)
    ensures WithStatus(WithStatus(jobs, id, s), id, t) == WithStatus(jobs, id, t)
  {
  }

  class SmallJobsSection {
    var smallJobs: seq<SmallJob>
    var isAddingJob: bool
    var newJob: JobDraft

    /** No jobs, the dialog closed and an empty draft. */
    constructor ()
      ensures smallJobs == [] && !isAddingJob && newJob == EmptyDraft
    {
      smallJobs := [];
      isAddingJob := false;
      newJob := EmptyDraft;
    }

    /** The dialog's open/close and Cancel. */
    method SetDialogOpen(open: bool)
      modifies this
      ensures isAddingJob == open && smallJobs == old(smallJobs) && newJob == old(newJob)
    {
      isAddingJob := open;
    }

    /** Typing a title or choosing an order number in the dialog. */
    method EditDraft(draft: JobDraft)
      modifies this
      ensures newJob == draft && smallJobs == old(smallJobs) && isAddingJob == old(isAddingJob)
    {
      newJob := draft;
    }

    /** `handleAddJob`, given the generated id and the clock reading. A title that
        is blank after trimming is refused and nothing changes; otherwise the job
        is appended, the draft cleared and the dialog closed. */
    method AddJob(id: string, now: int) returns (added: bool)
      modifies this
      ensures added <==> Js.Trim(old(newJob).title) != []
      ensures !added ==> smallJobs == old(smallJobs) && newJob == old(newJob) && isAddingJob == old(isAddingJob)
      ensures added ==> smallJobs == old(smallJobs) + [NewJob(old(newJob), id, now)]
      ensures added ==> newJob == EmptyDraft && !isAddingJob
    {
      if Js.Trim(newJob.title) == [] {
        return false;
      }
      var job := NewJob(newJob, id, now);
      smallJobs := smallJobs + [job];
      newJob := EmptyDraft;
      isAddingJob := false;
      added := true;
    }

    /** `handleDeleteJob`. */
    method DeleteJob(id: string)
      modifies this
      ensures smallJobs == WithoutJob(old(smallJobs), id)
      ensures newJob == old(newJob) && isAddingJob == old(isAddingJob)
    {
      smallJobs := WithoutJob(smallJobs, id);
    }

    /** `handleStatusChange`. */
    method ChangeStatus(id: string, status: Status)
      modifies this
      ensures smallJobs == WithStatus(old(smallJobs), id, status)
      ensures newJob == old(newJob) && isAddingJob == old(isAddingJob)
    {
      smallJobs := WithStatus(smallJobs, id, status);
    }
  }

  /** Adding then deleting the new job's id restores the list, when no earlier job
      shares the id. */
  lemma DeleteUndoesAdd(jobs: seq<SmallJob>, draft: JobDraft, id: string, now: int)
    requires forall i :: 0 <= i < |jobs| ==> jobs[i].id != id
    ensures WithoutJob(jobs + [NewJob(draft, id, now)], id) == jobs
  {
    FilterConcat(jobs, [NewJob(draft, id, now)], OtherJob(id));
    FilterExtremes(jobs, OtherJob(id));
    assert Filter([NewJob(draft, id, now)], OtherJob(id)) == [];
  }
}
