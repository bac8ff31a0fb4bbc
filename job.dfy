/**
 * The job registry (src/job.ts): render jobs keyed by their source file, each with a status that
 * the status-bar item mirrors. A job is an object, so a status set through one reference is seen
 * through the registry. The status-bar item is reduced to its icon and its visibility; its
 * colours, name, command and tooltip are not modelled.
 */
module Job {
  import opened Wrappers
  import Globals

  /** `JobStatus`, in declaration order. */
  datatype JobStatus = Error | Active | Running | New

  /** The icon each status shows. */
  function StatusIcon(s: JobStatus): string {
    match s
    case New => "$(vm-active)"
    case Active => "$(vm-running)"
    case Error => "$(vm-outline)"
    case Running => "$(sync~spin)"
  }

  /** A job: its running configuration, the media type it produced, and its status. */
  class Job {
    const config: Globals.RunningConfig
    var outputFileType: int
    var status: JobStatus

    constructor(config: Globals.RunningConfig, fileType: int)
      ensures this.config == config && outputFileType == fileType && status == New
    {
      this.config := config;
      outputFileType := fileType;
      status := New;
    }
  }

  /** The active editor, when there is one: its language and its file. */
  datatype Editor = Editor(languageId: string, fileName: string)

  /** `JobStatusManager`. */
  class JobStatusManager {
    var activeJobs: map<string, Job>
    /** The status-bar item's icon and visibility. */
    var icon: string
    var visible: bool

    /** Every job is filed under its own source path, so there is at most one per path. */
    predicate Valid()
      reads this
    {
      forall k :: k in activeJobs ==> activeJobs[k].config.srcPath == k
    }

    constructor()
      ensures Valid() && activeJobs == map[] && !visible
    {
      activeJobs := map[];
      icon := "";
      visible := false;
    }

    /** `addJob`: a fresh job with status New under `config.srcPath`, replacing any job there. */
    method AddJob(config: Globals.RunningConfig, fileType: int)
      requires Valid()
      modifies this
      ensures Valid()
      ensures config.srcPath in activeJobs && fresh(activeJobs[config.srcPath])
      ensures activeJobs == old(activeJobs)[config.srcPath := activeJobs[config.srcPath]]
      ensures var j := activeJobs[config.srcPath];
        j.config == config && j.outputFileType == fileType && j.status == New
      ensures icon == StatusIcon(New) && visible
    {
      var j := new Job(config, fileType);
      activeJobs := activeJobs[config.srcPath := j];
      SetNew();
    }

    /** `removeJob`: only `srcPath` leaves the registry; an absent path changes nothing. */
    method RemoveJob(srcPath: string)
      requires Valid()
      modifies this
      ensures Valid()
      ensures activeJobs == old(activeJobs) - {srcPath}
      ensures icon == old(icon) && visible == old(visible)
    {
      activeJobs := activeJobs - {srcPath};
    }

    /** `removeAllActiveJobs`. */
    method RemoveAllActiveJobs()
      modifies this
      ensures Valid() && activeJobs == map[]
      ensures icon == old(icon) && visible == old(visible)
    {
      activeJobs := map[];
    }

    /**
     * `getActiveJob`: the job stored under `srcPath` or, when no (or an empty) path is given,
     * under the active editor's file when that is a Python file; `null` for a missing entry.
     */
    function GetActiveJob(srcPath: Option<string>, editor: Option<Editor>): (r: Job?)
      reads this
      ensures r != null ==> r in activeJobs.Values
      ensures r != null && Valid() ==>
        if srcPath.Some? && srcPath.value != "" then r.config.srcPath == srcPath.value
        else editor.Some? && r.config.srcPath == editor.value.fileName
      ensures r == null <==>
        if srcPath.Some? && srcPath.value != "" then srcPath.value !in activeJobs
        else editor.None? || editor.value.languageId != "python" || editor.value.fileName !in activeJobs
    {
      if srcPath.Some? && srcPath.value != "" then
        if srcPath.value in activeJobs then activeJobs[srcPath.value] else null
      else if editor.None? || editor.value.languageId != "python" then null
      else if editor.value.fileName in activeJobs then activeJobs[editor.value.fileName] else null
    }

    /** `setNew`: only the status-bar item. */
    method SetNew()
      modifies this
      ensures activeJobs == old(activeJobs) && icon == StatusIcon(New) && visible
    {
      icon := "$(vm-active)";
      visible := true;
    }

    /** `setRunning`: the given job, if any, becomes Running. */
    method SetRunning(job: Job?)
      modifies this, job
      ensures job != null ==> job.status == Running && job.outputFileType == old(job.outputFileType)
      ensures activeJobs == old(activeJobs) && icon == StatusIcon(Running) && visible
    {
      if job != null {
        job.status := Running;
      }
      icon := "$(sync~spin)";
      visible := true;
    }

    /** `setActive`: the given job, if any, becomes Active. */
    method SetActive(job: Job?)
      modifies this, job
      ensures job != null ==> job.status == Active && job.outputFileType == old(job.outputFileType)
      ensures activeJobs == old(activeJobs) && icon == StatusIcon(Active) && visible
    {
      if job != null {
        job.status := Active;
      }
      icon := "$(vm-running)";
      visible := true;
    }

    /** `setError`: the given job, if any, becomes Error. */
    method SetError(job: Job?)
      modifies this, job
      ensures job != null ==> job.status == Error && job.outputFileType == old(job.outputFileType)
      ensures activeJobs == old(activeJobs) && icon == StatusIcon(Error) && visible
    {
      if job != null {
        job.status := Error;
      }
      icon := "$(vm-outline)";
      visible := true;
    }

    /** `restoreStatus`: the item shows the job's status again, and the status itself stays. */
    method RestoreStatus(job: Job)
      modifies this, job
      ensures job.status == old(job.status) && job.outputFileType == old(job.outputFileType)
      ensures activeJobs == old(activeJobs) && icon == StatusIcon(job.status) && visible
    {
      match job.status {
        case New => SetNew();
        case Active => SetActive(job);
        case Error => SetError(job);
        case Running => SetRunning(job);
      }
    }
  }
}
