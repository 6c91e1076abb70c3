/** The audio job handler (`handler` of handler.py): check the job and the
    model file, submit the workflow, poll the history for up to 600 seconds
    and report the first audio file of node "8" as a /view URL.  The backend
    is seen only through its replies: `submit` for POST /prompt and one
    `Poll` per loop turn for GET /history; the file system is the predicate
    `pathExists`. */
module AudioHandler {
  import opened Backend
  import opened Polling

  const ComfyUrl := "http://127.0.0.1:8188"

  /** The model locations probed in order before anything is submitted. */
  const ModelPaths: seq<string> := [
    "/runpod-volume/models/checkpoints/ace_step_1.5_turbo_aio.safetensors",
    "/workspace/models/checkpoints/ace_step_1.5_turbo_aio.safetensors",
    "/comfyui/models/checkpoints/ace_step_1.5_turbo_aio.safetensors",
    "/runpod-volume/models/unet/ace_step_1.5_turbo_aio.safetensors",
    "/workspace/models/unet/ace_step_1.5_turbo_aio.safetensors"
  ]

  const MaxWait: int := 600

  /** The job as the handler reads it: only the truthiness of
      job.input.workflow matters; the workflow itself is passed on. */
  datatype AudioJob = AudioJob(workflowPresent: bool)

  /** The one dictionary a job returns. */
  datatype AudioOutcome =
    | MissingWorkflow
    | ModelNotFound
    | SubmitFailed(responseText: string)
    | NoPromptId
    | TimedOut
    | ExecutionFailed(details: StatusField)
    | Succeeded(audioUrl: string, promptId: string)
    | NoAudio(outputs: OutputsField)
    | Unhandled(fault: Fault)
  {
    /** The "error" entry; None for a success and for an exception whose
        Python text is not modelled. */
    function ErrorText(): (r: Option<string>)
      ensures r.None? <==> Succeeded? || this == Unhandled(ShapeFault)
    {
      match this
      case MissingWorkflow => Some("Missing workflow")
      case ModelNotFound => Some("Modelo ace_step_1.5_turbo_aio.safetensors no encontrado")
      case SubmitFailed(text) => Some("ComfyUI error: " + text)
      case NoPromptId => Some("No prompt_id")
      case TimedOut => Some("Timeout")
      case ExecutionFailed(_) => Some("ComfyUI error")
      case Succeeded(_, _) => None
      case NoAudio(_) => Some("No audio in outputs")
      case Unhandled(Raised(m)) => Some(m)
      case Unhandled(ShapeFault) => None
    }

    /** The "prompt_id" entry: only a success names it. */
    function PromptIdEntry(): (r: Option<string>)
      ensures r.Some? <==> Succeeded?
      ensures r.Some? ==> r.value == promptId
    {
      match this
      case Succeeded(_, p) => Some(p)
      case _ => None
    }
  }

  /** Some probed location holds the model. */
  predicate ModelFound(pathExists: string -> bool) {
    exists j :: 0 <= j < |ModelPaths| && pathExists(ModelPaths[j])
  }

  /** The /view URL of an output file, with the filename pasted in as it is
      (no URL encoding). */
  function AudioUrl(filename: string): (url: string)
    ensures |url| == |ComfyUrl + "/view?filename="| + |filename| + |"&type=output"|
    ensures url[..|ComfyUrl + "/view?filename="|] == ComfyUrl + "/view?filename="
    ensures url[|url| - |"&type=output"|..] == "&type=output"
  {
    ComfyUrl + "/view?filename=" + filename + "&type=output"
  }

  /** The filename a URL built by AudioUrl carries. */
  function UrlFilename(url: string): string
    requires |url| >= |ComfyUrl + "/view?filename="| + |"&type=output"|
  {
    url[|ComfyUrl + "/view?filename="|..|url| - |"&type=output"|]
  }

  /** The URL gives the filename back, so distinct files get distinct URLs. */
  lemma AudioUrlRoundTrip(filename: string)
    ensures UrlFilename(AudioUrl(filename)) == filename
  {
    var pre := ComfyUrl + "/view?filename=";
    var url := AudioUrl(filename);
    assert url == pre + filename + "&type=output";
    assert url[|pre|..|url| - |"&type=output"|] == filename;
  }

  lemma AudioUrlInjective(f: string, g: string)
    requires AudioUrl(f) == AudioUrl(g)
    ensures f == g
  {
    AudioUrlRoundTrip(f);
    AudioUrlRoundTrip(g);
  }

  /** What node "8" of the outputs offers. */
  datatype AudioPick = NoAudioFile | AudioFile(filename: string) | AudioShapeFault

  /** The audio file of the outputs: the first element of node "8"'s "audio"
      list, when it is a dict with a truthy filename.  Indexing a truthy
      non-list, or calling .get on a non-dict element, raises.  Outputs that
      are not a dict are taken to lack "8". */
  function PickAudio(outputs: OutputsField): (r: AudioPick)
    ensures r.AudioFile? <==>
      && outputs.OutputsDict?
      && Lookup(outputs.entries, "8").Some?
      && Lookup(outputs.entries, "8").value.NodeDict?
      && Lookup(outputs.entries, "8").value.audio.MediaList?
      && |Lookup(outputs.entries, "8").value.audio.items| > 0
      && Lookup(outputs.entries, "8").value.audio.items[0].DictElement?
      && Truthy(Lookup(outputs.entries, "8").value.audio.items[0].info.filename)
    ensures r.AudioFile? ==> Some(r.filename) == Lookup(outputs.entries, "8").value.audio.items[0].info.filename
    ensures r.AudioShapeFault? <==>
      && outputs.OutputsDict?
      && Lookup(outputs.entries, "8").Some?
      && Lookup(outputs.entries, "8").value.NodeDict?
      && var audio := Lookup(outputs.entries, "8").value.audio;
         audio == MediaNotList(true) || (audio.MediaList? && |audio.items| > 0 && audio.items[0].NonDictElement?)
  {
    match outputs
    case OutputsNotDict => NoAudioFile
    case OutputsDict(entries) =>
      match Lookup(entries, "8")
      case None => NoAudioFile
      case Some(NodeNotDict) => NoAudioFile
      case Some(NodeDict(_, audio)) =>
        match audio
        case MediaAbsent => NoAudioFile
        case MediaNotList(truthy) => if truthy then AudioShapeFault else NoAudioFile
        case MediaList(items) =>
          if |items| == 0 then NoAudioFile
          else match items[0]
            case NonDictElement => AudioShapeFault
            case DictElement(info) =>
              if Truthy(info.filename) then AudioFile(info.filename.value) else NoAudioFile
  }

  /** One turn of the poll loop.  Only a non-200 history and an id not yet
      in the history keep polling; an entry that is there always ends the
      job, with or without audio. */
  function AudioStep(promptId: string, p: Poll): Step<AudioOutcome> {
    if p.elapsed > MaxWait as real then Finish(TimedOut)
    else match p.history
      case HistoryRaised(e) => Finish(Unhandled(Raised(e)))
      case HistoryReplied(status, body) =>
        if status != 200 then KeepPolling
        else match body
          case HistoryUnreadable(e) => Finish(Unhandled(Raised(e)))
          case HistoryJson(None) => KeepPolling
          case HistoryJson(Some(entry)) =>
            match entry.status
            case StatusNotDict => Finish(Unhandled(ShapeFault))
            case StatusDict(s) =>
              if s == Some("error") then Finish(ExecutionFailed(entry.status))
              else match PickAudio(entry.outputs)
                case AudioShapeFault => Finish(Unhandled(ShapeFault))
                case NoAudioFile => Finish(NoAudio(entry.outputs))
                case AudioFile(f) => Finish(Succeeded(AudioUrl(f), promptId))
  }

  /** The prompt_id when the handler reaches its loop, otherwise the outcome
      it returns before polling. */
  datatype Submitted = Accepted(promptId: string) | Rejected(outcome: AudioOutcome)

  /** The workflow and model checks come before the `try`; the submit is
      inside it. */
  function SubmitPhase(job: AudioJob, pathExists: string -> bool, submit: SubmitReply): Submitted {
    if !job.workflowPresent then Rejected(MissingWorkflow)
    else if !ModelFound(pathExists) then Rejected(ModelNotFound)
    else match submit
      case SubmitRaised(e) => Rejected(Unhandled(Raised(e)))
      case SubmitReplied(status, text, body) =>
        if status != 200 then Rejected(SubmitFailed(text))
        else match body
          case SubmitUnreadable(e) => Rejected(Unhandled(Raised(e)))
          case SubmitJson(promptId) =>
            if !Truthy(promptId) then Rejected(NoPromptId) else Accepted(promptId.value)
  }

  /** The outcome of the whole handler on a trace; None when the trace ends
      while the loop is still polling. */
  function AudioJobOutcome(job: AudioJob, pathExists: string -> bool, submit: SubmitReply, polls: seq<Poll>): Option<AudioOutcome> {
    match SubmitPhase(job, pathExists, submit)
    case Rejected(o) => Some(o)
    case Accepted(pid) => Drive((p: Poll) => AudioStep(pid, p), polls)
  }

  /** handler(job) of the audio flow: the model probe stops at the first
      location that exists; the poll loop runs turn by turn over the trace. */
  method Handler(job: AudioJob, pathExists: string -> bool, submit: SubmitReply, polls: seq<Poll>)
    returns (r: Option<AudioOutcome>)
    ensures r == AudioJobOutcome(job, pathExists, submit, polls)
  {
    if !job.workflowPresent {
      return Some(MissingWorkflow);
    }
    var modelFound := false;
    var k := 0;
    while k < |ModelPaths| && !modelFound
      invariant 0 <= k <= |ModelPaths|
      invariant modelFound <==> exists j :: 0 <= j < k && pathExists(ModelPaths[j])
    {
      if pathExists(ModelPaths[k]) {
        modelFound := true;
      }
      k := k + 1;
    }
    if !modelFound {
      return Some(ModelNotFound);
    }
    if submit.SubmitRaised? {
      return Some(Unhandled(Raised(submit.message)));
    }
    if submit.status != 200 {
      return Some(SubmitFailed(submit.text));
    }
    if submit.body.SubmitUnreadable? {
      return Some(Unhandled(Raised(submit.body.message)));
    }
    var promptId := submit.body.promptId;
    if !Truthy(promptId) {
      return Some(NoPromptId);
    }
    var pid := promptId.value;
    assert SubmitPhase(job, pathExists, submit) == Accepted(pid);
    ghost var step := (p: Poll) => AudioStep(pid, p);
    var i := 0;
    while i < |polls|
      invariant 0 <= i <= |polls|
      invariant Drive(step, polls[i..]) == AudioJobOutcome(job, pathExists, submit, polls)
    {
      assert polls[i..][0] == polls[i];
      if polls[i].elapsed > MaxWait as real {
        return Some(TimedOut);
      }
      var reply := polls[i].history;
      if reply.HistoryRaised? {
        return Some(Unhandled(Raised(reply.message)));
      }
      if reply.status == 200 {
        if reply.body.HistoryUnreadable? {
          return Some(Unhandled(Raised(reply.body.message)));
        }
        if reply.body.entry.Some? {
          var jobData := reply.body.entry.value;
          if jobData.status.StatusNotDict? {
            return Some(Unhandled(ShapeFault));
          }
          if jobData.status.statusStr == Some("error") {
            return Some(ExecutionFailed(jobData.status));
          }
          var outputs := jobData.outputs;
          if outputs.OutputsDict? {
            var node := Lookup(outputs.entries, "8");
            if node.Some? && node.value.NodeDict? {
              var audio := node.value.audio;
              if audio == MediaNotList(true) {
                return Some(Unhandled(ShapeFault));
              }
              if audio.MediaList? && |audio.items| > 0 {
                if audio.items[0].NonDictElement? {
                  return Some(Unhandled(ShapeFault));
                }
                var filename := audio.items[0].info.filename;
                if Truthy(filename) {
                  return Some(Succeeded(ComfyUrl + "/view?filename=" + filename.value + "&type=output", pid));
                }
              }
            }
          }
          return Some(NoAudio(outputs));
        }
      }
      DriveSkip(step, polls, i);
      i := i + 1;
    }
    return None;
  }

  // ---- Properties of the audio flow ----

  /** The job is refused before any request when the workflow is falsy, and
      when no probed location holds the model. */
  lemma ChecksBeforeSubmit(job: AudioJob, pathExists: string -> bool, submit: SubmitReply, polls: seq<Poll>)
    ensures !job.workflowPresent ==> AudioJobOutcome(job, pathExists, submit, polls) == Some(MissingWorkflow)
    ensures job.workflowPresent && (forall j :: 0 <= j < |ModelPaths| ==> !pathExists(ModelPaths[j])) ==>
      AudioJobOutcome(job, pathExists, submit, polls) == Some(ModelNotFound)
  {
  }

  /** Finding the model at any one of the five locations is enough for the
      job to get past the model check. */
  lemma AnyModelPathSuffices(job: AudioJob, pathExists: string -> bool, submit: SubmitReply, j: nat)
    requires job.workflowPresent
    requires j < |ModelPaths| && pathExists(ModelPaths[j])
    ensures SubmitPhase(job, pathExists, submit) != Rejected(ModelNotFound)
  {
    assert ModelFound(pathExists);
  }

  /** A non-200 submit fails with the response text, and a reply without a
      truthy prompt_id fails with "No prompt_id"; neither polls. */
  lemma SubmitFailureEndsJob(job: AudioJob, pathExists: string -> bool, submit: SubmitReply, polls: seq<Poll>)
    requires job.workflowPresent && ModelFound(pathExists) && submit.SubmitReplied?
    ensures submit.status != 200 ==>
      AudioJobOutcome(job, pathExists, submit, polls) == Some(SubmitFailed(submit.text))
    ensures submit.status == 200 && submit.body.SubmitJson? && !Truthy(submit.body.promptId) ==>
      AudioJobOutcome(job, pathExists, submit, polls) == Some(NoPromptId)
  {
  }

  /** Before 600 seconds, a non-200 history reply, or a 200 reply without
      the id, keeps the loop polling; nothing else does. */
  lemma KeepPollingCases(pid: string, p: Poll)
    ensures AudioStep(pid, p).KeepPolling? <==>
      && p.elapsed <= MaxWait as real
      && p.history.HistoryReplied?
      && (p.history.status != 200 || p.history.body == HistoryJson(None))
  {
  }

  /** A non-error entry whose node "8" offers no audio file ends the job
      with "No audio in outputs" and the outputs, whatever they hold. */
  lemma NoAudioEndsJob(pid: string, p: Poll, entry: JobEntry)
    requires p.elapsed <= MaxWait as real
    requires p.history == HistoryReplied(200, HistoryJson(Some(entry)))
    requires entry.status.StatusDict? && entry.status.statusStr != Some("error")
    requires PickAudio(entry.outputs).NoAudioFile?
    ensures AudioStep(pid, p) == Finish(NoAudio(entry.outputs))
  {
  }

  /** A non-error entry whose node "8" offers an audio file ends the job
      with success: the /view URL of that file and the prompt_id. */
  lemma AudioStepSucceeds(pid: string, p: Poll, entry: JobEntry, f: string)
    requires p.elapsed <= MaxWait as real
    requires p.history == HistoryReplied(200, HistoryJson(Some(entry)))
    requires entry.status.StatusDict? && entry.status.statusStr != Some("error")
    requires PickAudio(entry.outputs) == AudioFile(f)
    ensures AudioStep(pid, p) == Finish(Succeeded(AudioUrl(f), pid))
    ensures AudioStep(pid, p).outcome.PromptIdEntry() == Some(pid)
  {
  }

  /** A non-error entry whose node "8" has a truthy non-list "audio", or a
      first element that is not a dict, raises inside the `try`. */
  lemma AudioShapeFaultEnds(pid: string, p: Poll, entry: JobEntry)
    requires p.elapsed <= MaxWait as real
    requires p.history == HistoryReplied(200, HistoryJson(Some(entry)))
    requires entry.status.StatusDict? && entry.status.statusStr != Some("error")
    requires PickAudio(entry.outputs).AudioShapeFault?
    ensures AudioStep(pid, p) == Finish(Unhandled(ShapeFault))
  {
  }

  /** With a workflow, a model found and a 200 reply with a truthy
      prompt_id, the handler polls for exactly that id. */
  lemma AudioAccepted(job: AudioJob, pathExists: string -> bool, submit: SubmitReply, polls: seq<Poll>, pid: string)
    requires job.workflowPresent && ModelFound(pathExists)
    requires submit.SubmitReplied? && submit.status == 200 && submit.body == SubmitJson(Some(pid))
    requires pid != ""
    ensures SubmitPhase(job, pathExists, submit) == Accepted(pid)
    ensures AudioJobOutcome(job, pathExists, submit, polls) == Drive((p: Poll) => AudioStep(pid, p), polls)
  {
  }

  /** An exception raised by POST /prompt, or by reading its reply, is
      caught by the `try` and reported by its text. */
  lemma AudioSubmitRaises(job: AudioJob, pathExists: string -> bool, submit: SubmitReply, polls: seq<Poll>, e: string)
    requires job.workflowPresent && ModelFound(pathExists)
    requires submit == SubmitRaised(e)
          || (submit.SubmitReplied? && submit.status == 200 && submit.body == SubmitUnreadable(e))
    ensures AudioJobOutcome(job, pathExists, submit, polls) == Some(Unhandled(Raised(e)))
    ensures AudioJobOutcome(job, pathExists, submit, polls).value.ErrorText() == Some(e)
  {
  }

  /** A "status" that is not a dict makes `.get("status_str")` raise; the
      `try` catches it, with a Python text the model leaves out. */
  lemma AudioStatusNotDictFaults(pid: string, p: Poll, entry: JobEntry)
    requires p.elapsed <= MaxWait as real
    requires p.history == HistoryReplied(200, HistoryJson(Some(entry)))
    requires entry.status.StatusNotDict?
    ensures AudioStep(pid, p) == Finish(Unhandled(ShapeFault))
  {
  }

  /** An exception raised by GET /history, or by reading a 200 reply,
      before the deadline ends the job with its text. */
  lemma AudioStepRaises(pid: string, p: Poll, e: string)
    requires p.elapsed <= MaxWait as real
    requires p.history == HistoryRaised(e) || p.history == HistoryReplied(200, HistoryUnreadable(e))
    ensures AudioStep(pid, p) == Finish(Unhandled(Raised(e)))
    ensures AudioStep(pid, p).outcome.ErrorText() == Some(e)
  {
  }

  /** A turn whose history holds the entry ends the job: the loop never
      polls on once the id is in the history. */
  lemma {:induction false} EntryEndsLoop(pid: string, polls: seq<Poll>, k: nat)
    requires k < |polls|
    requires polls[k].history.HistoryReplied? && polls[k].history.status == 200
    requires polls[k].history.body.HistoryJson? && polls[k].history.body.entry.Some?
    ensures AudioStep(pid, polls[k]).Finish?
    ensures Drive((p: Poll) => AudioStep(pid, p), polls).Some?
  {
    var step := (p: Poll) => AudioStep(pid, p);
    assert step(polls[k]).Finish?;
    DriveUnfinished(step, polls);
  }

  /** Only an exact, lower-case status_str "error" is an execution error;
      any other status falls through to the outputs. */
  lemma ErrorStatusExact(pid: string, p: Poll, entry: JobEntry, s: string)
    requires p.elapsed <= MaxWait as real
    requires p.history == HistoryReplied(200, HistoryJson(Some(entry)))
    requires entry.status == StatusDict(Some(s))
    ensures AudioStep(pid, p) == Finish(ExecutionFailed(entry.status)) <==> s == "error"
  {
  }

  /** A success reports the filename of the first element of node "8"'s
      audio list, recoverable from its URL, together with the prompt_id. */
  lemma SuccessNamesNodeEight(pid: string, p: Poll)
    ensures AudioStep(pid, p).Finish? && AudioStep(pid, p).outcome.Succeeded? ==>
      && p.history.HistoryReplied?
      && p.history.body.HistoryJson?
      && p.history.body.entry.Some?
      && var outputs := p.history.body.entry.value.outputs;
         && PickAudio(outputs).AudioFile?
         && AudioStep(pid, p).outcome.promptId == pid
         && Some(UrlFilename(AudioStep(pid, p).outcome.audioUrl))
            == Lookup(outputs.entries, "8").value.audio.items[0].info.filename
  {
    if AudioStep(pid, p).Finish? && AudioStep(pid, p).outcome.Succeeded? {
      var f := PickAudio(p.history.body.entry.value.outputs).filename;
      AudioUrlRoundTrip(f);
    }
  }

  /** Past 600 seconds the job times out, with no prompt_id in the reply. */
  lemma {:induction false} TimeoutAt(pid: string, polls: seq<Poll>, k: nat)
    requires k < |polls|
    requires forall j :: 0 <= j < k ==> AudioStep(pid, polls[j]).KeepPolling?
    requires polls[k].elapsed > 600.0
    ensures Drive((p: Poll) => AudioStep(pid, p), polls) == Some(TimedOut)
  {
    var step := (p: Poll) => AudioStep(pid, p);
    assert forall j :: 0 <= j < k ==> step(polls[j]).KeepPolling?;
    DriveFirstFinish(step, polls, k, TimedOut);
  }
}
