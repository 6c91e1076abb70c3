/** The image job handler (`handler` of handler-z-image.py): check the job,
    submit the workflow, poll the history until the deadline, then resolve,
    download and re-encode the image.  The backend is seen only through its
    replies: `submit` for POST /prompt, one `Poll` per loop turn for GET
    /history, and `env.view` for GET /view. */
module ImageHandler {
  import opened Backend
  import opened Strings
  import opened Polling
  import opened Resolver
  import opened Download
  import opened Compress

  /** job.input.max_wait: absent (300), an integer (after int()), or a
      value int() rejects, with the exception's text. */
  datatype MaxWaitInput = MaxWaitAbsent | MaxWaitGiven(seconds: int) | MaxWaitInvalid(message: string)

  /** The fields of job["input"] the handler reads.  `outputNodeIds` holds
      the str() forms of output_node_ids, None when the key is absent; the
      seed is echoed back unread. */
  datatype ImageJob = ImageJob(
    workflowPresent: bool,
    outputNodeIds: Option<seq<string>>,
    maxWait: MaxWaitInput,
    seed: Option<string>)

  /** Everything the handler reaches beyond the job and the poll trace. */
  datatype ImageEnv = ImageEnv(cfg: Config, pillow: Pillow, view: seq<(string, string)> -> FetchReply)

  /** The one dictionary a job returns.  `payload` is the final image;
      image_base64 is its base64 text. */
  datatype ImageOutcome =
    | MissingWorkflow
    | SubmitFailed(responseText: string)
    | NoPromptId
    | TimedOut(maxWait: int, promptId: string)
    | ExecutionFailed(details: StatusField, promptId: string)
    | DownloadFailed(message: string, promptId: string, imageInfo: ImageInfo)
    | Succeeded(promptId: string, seed: Option<string>, nodeId: string, filename: Option<string>,
                contentType: string, fileSize: nat, payload: seq<byte>)
    | Unhandled(fault: Fault)
  {
    /** The "error" entry; None for a success and for an exception whose
        Python text is not modelled. */
    function ErrorText(): (r: Option<string>)
      ensures r.None? <==> Succeeded? || this == Unhandled(ShapeFault)
    {
      match this
      case MissingWorkflow => Some("Missing workflow in job.input")
      case SubmitFailed(text) => Some("ComfyUI /prompt failed: " + text)
      case NoPromptId => Some("No prompt_id returned by ComfyUI")
      case TimedOut(w, _) => Some("Timeout after " + IntToString(w) + "s waiting for ComfyUI")
      case ExecutionFailed(_, _) => Some("ComfyUI execution error")
      case DownloadFailed(m, _, _) => Some(m)
      case Succeeded(_, _, _, _, _, _, _) => None
      case Unhandled(Raised(m)) => Some(m)
      case Unhandled(ShapeFault) => None
    }

    /** The "prompt_id" entry, present once the job has an id. */
    function PromptIdEntry(): (r: Option<string>)
      ensures r.Some? <==> TimedOut? || ExecutionFailed? || DownloadFailed? || Succeeded?
      ensures r.Some? ==> r.value == promptId
    {
      match this
      case TimedOut(_, p) => Some(p)
      case ExecutionFailed(_, p) => Some(p)
      case DownloadFailed(_, p, _) => Some(p)
      case Succeeded(p, _, _, _, _, _, _) => Some(p)
      case _ => None
    }
  }

  const DefaultOutputNodes: seq<string> := ["9"]
  const DefaultMaxWait: int := 300

  /** What a poll turn needs from before the loop. */
  datatype PollContext = PollContext(promptId: string, maxWait: int, preferred: seq<string>, seed: Option<string>)

  /** str(status.get("status_str", "")).lower() == "error" */
  predicate IsErrorStatus(statusStr: Option<string>) {
    Lower(statusStr.GetOr("")) == "error"
  }

  /** One turn of the poll loop.  Non-200 history, an id not yet in the
      history, and history without an image all keep polling. */
  function ImageStep(ctx: PollContext, env: ImageEnv, p: Poll): Step<ImageOutcome> {
    if p.elapsed > ctx.maxWait as real then Finish(TimedOut(ctx.maxWait, ctx.promptId))
    else match p.history
      case HistoryRaised(e) => Finish(Unhandled(Raised(e)))
      case HistoryReplied(status, body) =>
        if status != 200 then KeepPolling
        else match body
          case HistoryUnreadable(e) => Finish(Unhandled(Raised(e)))
          case HistoryJson(None) => KeepPolling
          case HistoryJson(Some(entry)) =>
            match entry.status
            case StatusNotDict => Finish(Unhandled(ShapeFault))
            case StatusDict(s) =>
              if IsErrorStatus(s) then Finish(ExecutionFailed(entry.status, ctx.promptId))
              else match Resolve(entry.outputs, ctx.preferred)
                case None => KeepPolling
                case Some(found) =>
                  if !found.info.NonEmpty() then KeepPolling
                  else match DownloadImage(found.info, env.view)
                    case DownloadError(m) => Finish(DownloadFailed(m, ctx.promptId, found.info))
                    case Downloaded(bytes, contentType) =>
                      var c := CompressImageBytes(bytes, contentType, env.cfg, env.pillow);
                      Finish(Succeeded(ctx.promptId, ctx.seed, found.nodeId, found.info.filename,
                                       c.contentType, |c.bytes|, c.bytes))
  }

  /** The submit phase: the poll context when the handler reaches its loop,
      otherwise the outcome it returns before polling. */
  datatype Submitted = Accepted(ctx: PollContext) | Rejected(outcome: ImageOutcome)

  function SubmitPhase(job: ImageJob, submit: SubmitReply): Submitted {
    if !job.workflowPresent then Rejected(MissingWorkflow)
    else
      var preferred := job.outputNodeIds.GetOr(DefaultOutputNodes);
      match job.maxWait
      case MaxWaitInvalid(e) => Rejected(Unhandled(Raised(e)))
      case _ =>
        var maxWait := if job.maxWait.MaxWaitGiven? then job.maxWait.seconds else DefaultMaxWait;
        match submit
        case SubmitRaised(e) => Rejected(Unhandled(Raised(e)))
        case SubmitReplied(status, text, body) =>
          if status != 200 then Rejected(SubmitFailed(text))
          else match body
            case SubmitUnreadable(e) => Rejected(Unhandled(Raised(e)))
            case SubmitJson(promptId) =>
              if !Truthy(promptId) then Rejected(NoPromptId)
              else Accepted(PollContext(promptId.value, maxWait, preferred, job.seed))
  }

  /** The outcome of the whole handler on a trace; None when the trace ends
      while the loop is still polling. */
  function ImageJobOutcome(job: ImageJob, env: ImageEnv, submit: SubmitReply, polls: seq<Poll>): Option<ImageOutcome> {
    match SubmitPhase(job, submit)
    case Rejected(o) => Some(o)
    case Accepted(ctx) => Drive((p: Poll) => ImageStep(ctx, env, p), polls)
  }

  /** handler(job) of the image flow, turn by turn over the poll trace. */
  method Handler(job: ImageJob, env: ImageEnv, submit: SubmitReply, polls: seq<Poll>) returns (r: Option<ImageOutcome>)
    ensures r == ImageJobOutcome(job, env, submit, polls)
  {
    if !job.workflowPresent {
      return Some(MissingWorkflow);
    }
    var preferred := job.outputNodeIds.GetOr(DefaultOutputNodes);
    var maxWait: int;
    match job.maxWait {
      case MaxWaitAbsent => maxWait := DefaultMaxWait;
      case MaxWaitGiven(s) => maxWait := s;
      case MaxWaitInvalid(e) => return Some(Unhandled(Raised(e)));
    }
    if submit.SubmitRaised? {
      return Some(Unhandled(Raised(submit.message)));
    }
    if submit.status != 200 {
      return Some(SubmitFailed(submit.text));
    }
    if submit.body.SubmitUnreadable? {
      return Some(Unhandled(Raised(submit.body.message)));
    }
    var promptId := submit.body.promptId;
    if !Truthy(promptId) {
      return Some(NoPromptId);
    }
    var pid := promptId.value;
    ghost var ctx := PollContext(pid, maxWait, preferred, job.seed);
    assert SubmitPhase(job, submit) == Accepted(ctx);
    ghost var step := (p: Poll) => ImageStep(ctx, env, p);
    var i := 0;
    while i < |polls|
      invariant 0 <= i <= |polls|
      invariant Drive(step, polls[i..]) == ImageJobOutcome(job, env, submit, polls)
    {
      assert polls[i..][0] == polls[i];
      var elapsed := polls[i].elapsed;
      if elapsed > maxWait as real {
        return Some(TimedOut(maxWait, pid));
      }
      var reply := polls[i].history;
      if reply.HistoryRaised? {
        return Some(Unhandled(Raised(reply.message)));
      }
      if reply.status != 200 {
        DriveSkip(step, polls, i);
        i := i + 1;
        continue;
      }
      if reply.body.HistoryUnreadable? {
        return Some(Unhandled(Raised(reply.body.message)));
      }
      if reply.body.entry.None? {
        DriveSkip(step, polls, i);
        i := i + 1;
        continue;
      }
      var jobData := reply.body.entry.value;
      if jobData.status.StatusNotDict? {
        return Some(Unhandled(ShapeFault));
      }
      var statusStr := Lower(jobData.status.statusStr.GetOr(""));
      if statusStr == "error" {
        return Some(ExecutionFailed(jobData.status, pid));
      }
      var found := ExtractFirstImageInfo(jobData.outputs, preferred);
      if found.Some? && found.value.info.NonEmpty() {
        var info := found.value.info;
        var downloaded := DownloadImage(info, env.view);
        if downloaded.DownloadError? {
          return Some(DownloadFailed(downloaded.message, pid, info));
        }
        var c := CompressImageBytes(downloaded.bytes, downloaded.contentType, env.cfg, env.pillow);
        return Some(Succeeded(pid, job.seed, found.value.nodeId, info.filename, c.contentType, |c.bytes|, c.bytes));
      }
      DriveSkip(step, polls, i);
      i := i + 1;
    }
    return None;
  }

  // ---- Properties of the image flow ----

  /** The workflow check comes first and depends on nothing the backend
      says: without a workflow no submit reply and no poll is looked at. */
  lemma MissingWorkflowFirst(job: ImageJob, env: ImageEnv, submit: SubmitReply, polls: seq<Poll>)
    requires !job.workflowPresent
    ensures ImageJobOutcome(job, env, submit, polls) == Some(MissingWorkflow)
    ensures ImageJobOutcome(job, env, submit, polls).value.ErrorText() == Some("Missing workflow in job.input")
  {
  }

  /** With a workflow, a max_wait int() accepts and a 200 reply with a
      truthy prompt_id, the handler polls for that id with max_wait (300
      when absent) and output_node_ids (["9"] when absent). */
  lemma ImageAccepted(job: ImageJob, env: ImageEnv, submit: SubmitReply, polls: seq<Poll>, pid: string)
    requires job.workflowPresent && !job.maxWait.MaxWaitInvalid?
    requires submit.SubmitReplied? && submit.status == 200 && submit.body == SubmitJson(Some(pid))
    requires pid != ""
    ensures var wait := if job.maxWait.MaxWaitGiven? then job.maxWait.seconds else 300;
      SubmitPhase(job, submit) == Accepted(PollContext(pid, wait, job.outputNodeIds.GetOr(["9"]), job.seed))
    ensures ImageJobOutcome(job, env, submit, polls)
         == Drive((p: Poll) => ImageStep(SubmitPhase(job, submit).ctx, env, p), polls)
  {
  }

  /** A max_wait that int() rejects raises before anything is submitted;
      the `try` reports the exception's text. */
  lemma ImageMaxWaitInvalid(job: ImageJob, env: ImageEnv, submit: SubmitReply, polls: seq<Poll>, e: string)
    requires job.workflowPresent && job.maxWait == MaxWaitInvalid(e)
    ensures ImageJobOutcome(job, env, submit, polls) == Some(Unhandled(Raised(e)))
    ensures ImageJobOutcome(job, env, submit, polls).value.ErrorText() == Some(e)
  {
  }

  /** An exception raised by POST /prompt, or by reading its reply, is
      caught by the `try` and reported by its text. */
  lemma ImageSubmitRaises(job: ImageJob, env: ImageEnv, submit: SubmitReply, polls: seq<Poll>, e: string)
    requires job.workflowPresent && !job.maxWait.MaxWaitInvalid?
    requires submit == SubmitRaised(e)
          || (submit.SubmitReplied? && submit.status == 200 && submit.body == SubmitUnreadable(e))
    ensures ImageJobOutcome(job, env, submit, polls) == Some(Unhandled(Raised(e)))
    ensures ImageJobOutcome(job, env, submit, polls).value.ErrorText() == Some(e)
  {
  }

  /** A "status" that is not a dict makes `.get("status_str", "")` raise;
      the `try` catches it, with a Python text the model leaves out. */
  lemma ImageStatusNotDictFaults(ctx: PollContext, env: ImageEnv, p: Poll, entry: JobEntry)
    requires p.elapsed <= ctx.maxWait as real
    requires p.history == HistoryReplied(200, HistoryJson(Some(entry)))
    requires entry.status.StatusNotDict?
    ensures ImageStep(ctx, env, p) == Finish(Unhandled(ShapeFault))
  {
  }

  /** An exception raised by GET /history, or by reading a 200 reply,
      before the deadline ends the job with its text. */
  lemma ImageStepRaises(ctx: PollContext, env: ImageEnv, p: Poll, e: string)
    requires p.elapsed <= ctx.maxWait as real
    requires p.history == HistoryRaised(e) || p.history == HistoryReplied(200, HistoryUnreadable(e))
    ensures ImageStep(ctx, env, p) == Finish(Unhandled(Raised(e)))
    ensures ImageStep(ctx, env, p).outcome.ErrorText() == Some(e)
  {
  }

  /** A non-200 submit, or a reply without a truthy prompt_id, ends the job
      before any poll with an error that carries no prompt_id. */
  lemma SubmitFailureEndsJob(job: ImageJob, env: ImageEnv, submit: SubmitReply, polls: seq<Poll>)
    requires job.workflowPresent && !job.maxWait.MaxWaitInvalid? && submit.SubmitReplied?
    ensures submit.status != 200 ==>
      ImageJobOutcome(job, env, submit, polls) == Some(SubmitFailed(submit.text))
    ensures submit.status == 200 && submit.body.SubmitJson? && !Truthy(submit.body.promptId) ==>
      ImageJobOutcome(job, env, submit, polls) == Some(NoPromptId)
    ensures SubmitPhase(job, submit).Rejected? ==> SubmitPhase(job, submit).outcome.PromptIdEntry().None?
  {
  }

  /** A turn keeps polling exactly when it is before the deadline and the
      history call is non-200, lacks the id, or holds a non-error entry
      without a (truthy) image descriptor. */
  lemma KeepPollingCases(ctx: PollContext, env: ImageEnv, p: Poll)
    ensures ImageStep(ctx, env, p).KeepPolling? <==>
      && p.elapsed <= ctx.maxWait as real
      && p.history.HistoryReplied?
      && (|| p.history.status != 200
          || p.history.body == HistoryJson(None)
          || (&& p.history.body.HistoryJson?
              && p.history.body.entry.Some?
              && p.history.body.entry.value.status.StatusDict?
              && !IsErrorStatus(p.history.body.entry.value.status.statusStr)
              && (|| Resolve(p.history.body.entry.value.outputs, ctx.preferred).None?
                  || !Resolve(p.history.body.entry.value.outputs, ctx.preferred).value.info.NonEmpty())))
  {
  }

  /** Before the deadline, a non-200 history reply, or a 200 reply without
      the id, keeps the loop polling. */
  lemma HistoryNotReadyKeepsPolling(ctx: PollContext, env: ImageEnv, p: Poll)
    requires p.elapsed <= ctx.maxWait as real && p.history.HistoryReplied?
    requires p.history.status != 200 || p.history.body == HistoryJson(None)
    ensures ImageStep(ctx, env, p) == KeepPolling
  {
  }

  /** A status_str equal to "error" in any letter case ends the job with the
      execution error, whatever the outputs hold. */
  lemma ErrorStatusOverridesOutputs(ctx: PollContext, env: ImageEnv, p: Poll, s: string)
    requires p.elapsed <= ctx.maxWait as real
    requires p.history.HistoryReplied? && p.history.status == 200
    requires p.history.body.HistoryJson? && p.history.body.entry.Some?
    requires p.history.body.entry.value.status == StatusDict(Some(s))
    requires Lower(s) == "error"
    ensures ImageStep(ctx, env, p) == Finish(ExecutionFailed(StatusDict(Some(s)), ctx.promptId))
  {
  }

  /** Once the clock reading exceeds max_wait on a turn that the earlier
      turns all reached by polling on, the job times out on that turn,
      carrying its prompt_id, and no later observation is looked at. */
  lemma {:induction false} TimeoutAt(job: ImageJob, env: ImageEnv, submit: SubmitReply, polls: seq<Poll>, k: nat)
    requires SubmitPhase(job, submit).Accepted?
    requires k < |polls|
    requires forall j :: 0 <= j < k ==> ImageStep(SubmitPhase(job, submit).ctx, env, polls[j]).KeepPolling?
    requires polls[k].elapsed > SubmitPhase(job, submit).ctx.maxWait as real
    ensures ImageJobOutcome(job, env, submit, polls)
         == Some(TimedOut(SubmitPhase(job, submit).ctx.maxWait, SubmitPhase(job, submit).ctx.promptId))
  {
    var ctx := SubmitPhase(job, submit).ctx;
    var step := (p: Poll) => ImageStep(ctx, env, p);
    assert forall j :: 0 <= j < k ==> step(polls[j]).KeepPolling?;
    DriveFirstFinish(step, polls, k, TimedOut(ctx.maxWait, ctx.promptId));
  }

  /** A trace that reaches a clock reading past max_wait always ends in a
      terminal outcome: the loop cannot run on past its deadline. */
  lemma {:induction false} DeadlineEndsLoop(job: ImageJob, env: ImageEnv, submit: SubmitReply, polls: seq<Poll>, k: nat)
    requires SubmitPhase(job, submit).Accepted?
    requires k < |polls| && polls[k].elapsed > SubmitPhase(job, submit).ctx.maxWait as real
    ensures ImageJobOutcome(job, env, submit, polls).Some?
  {
    var ctx := SubmitPhase(job, submit).ctx;
    var step := (p: Poll) => ImageStep(ctx, env, p);
    assert step(polls[k]).Finish?;
    DriveUnfinished(step, polls);
  }

  /** What every success reports: file_size is the length of the final
      bytes, which are non-empty and typed as an image, and the filename is
      the resolved descriptor's (truthy) one. */
  predicate WellFormedSuccess(o: ImageOutcome) {
    o.Succeeded? ==>
      && o.fileSize == |o.payload|
      && o.fileSize > 0
      && StartsWith(o.contentType, "image/")
      && Truthy(o.filename)
  }

  lemma StepSuccessShape(ctx: PollContext, env: ImageEnv, p: Poll)
    ensures ImageStep(ctx, env, p).Finish? ==> WellFormedSuccess(ImageStep(ctx, env, p).outcome)
  {
    var st := ImageStep(ctx, env, p);
    if st.Finish? && st.outcome.Succeeded? {
      var entry := p.history.body.entry.value;
      var found := Resolve(entry.outputs, ctx.preferred).value;
      var d := DownloadImage(found.info, env.view);
      DownloadedShape(found.info, env.view);
      CompressedSize(d.bytes, d.contentType, env.cfg, env.pillow);
      CompressTwoOutcomes(d.bytes, d.contentType, env.cfg, env.pillow);
      assert StartsWith("image/jpeg", "image/") && StartsWith("image/webp", "image/");
    }
  }

  /** Every success of the handler is well formed. */
  lemma {:induction false} SuccessShape(job: ImageJob, env: ImageEnv, submit: SubmitReply, polls: seq<Poll>)
    ensures ImageJobOutcome(job, env, submit, polls).Some? ==>
      WellFormedSuccess(ImageJobOutcome(job, env, submit, polls).value)
  {
    if SubmitPhase(job, submit).Accepted? {
      var ctx := SubmitPhase(job, submit).ctx;
      var step := (p: Poll) => ImageStep(ctx, env, p);
      DriveOutcomeWitness(step, polls);
      if Drive(step, polls).Some? {
        var k :| 0 <= k < |polls| && step(polls[k]) == Finish(Drive(step, polls).value);
        StepSuccessShape(ctx, env, polls[k]);
      }
    }
  }

  /** A turn before the deadline whose history holds a non-error entry, a
      resolved descriptor with a filename and a successful download ends the
      job with success: the resolved node and filename, and the re-encoded
      bytes with their type and length. */
  lemma StepSucceeds(ctx: PollContext, env: ImageEnv, p: Poll, entry: JobEntry, found: Found,
                     bytes: seq<byte>, contentType: string)
    requires p.elapsed <= ctx.maxWait as real
    requires p.history == HistoryReplied(200, HistoryJson(Some(entry)))
    requires entry.status.StatusDict? && !IsErrorStatus(entry.status.statusStr)
    requires Resolve(entry.outputs, ctx.preferred) == Some(found) && found.info.NonEmpty()
    requires DownloadImage(found.info, env.view) == Downloaded(bytes, contentType)
    ensures var c := CompressImageBytes(bytes, contentType, env.cfg, env.pillow);
      ImageStep(ctx, env, p)
        == Finish(Succeeded(ctx.promptId, ctx.seed, found.nodeId, found.info.filename, c.contentType, |c.bytes|, c.bytes))
  {
  }

  /** A turn that resolves a truthy descriptor whose download fails ends
      the job with the download's error, the prompt_id and the descriptor. */
  lemma StepDownloadFails(ctx: PollContext, env: ImageEnv, p: Poll, entry: JobEntry, found: Found, message: string)
    requires p.elapsed <= ctx.maxWait as real
    requires p.history == HistoryReplied(200, HistoryJson(Some(entry)))
    requires entry.status.StatusDict? && !IsErrorStatus(entry.status.statusStr)
    requires Resolve(entry.outputs, ctx.preferred) == Some(found) && found.info.NonEmpty()
    requires DownloadImage(found.info, env.view) == DownloadError(message)
    ensures ImageStep(ctx, env, p) == Finish(DownloadFailed(message, ctx.promptId, found.info))
    ensures ImageStep(ctx, env, p).outcome.ErrorText() == Some(message)
    ensures ImageStep(ctx, env, p).outcome.PromptIdEntry() == Some(ctx.promptId)
  {
  }

  /** `{"filename": null}` is a truthy dict: the turn that resolves it does
      not keep polling but fails with "Missing filename…", and no /view
      request is made. */
  lemma NullFilenameDescriptorFails(ctx: PollContext, env: ImageEnv, p: Poll)
    requires p.elapsed <= ctx.maxWait as real && ctx.preferred == ["9"]
    requires p.history == HistoryReplied(200, HistoryJson(Some(JobEntry(StatusDict(None),
                                                          NodeNineOutputs(ImageInfo(None, None, None, true))))))
    ensures ImageStep(ctx, env, p)
         == Finish(DownloadFailed(MissingFilename, ctx.promptId, ImageInfo(None, None, None, true)))
  {
    var info := ImageInfo(None, None, None, true);
    NodeNineResolves(info);
    assert Lower("") == "";
    StepDownloadFails(ctx, env, p, p.history.body.entry.value, Found(info, "9"), MissingFilename);
  }

  /** An example run of the image flow: id "abc", two 404 history
      replies, then node "9" with out.png; /view gives 5000 bytes typed
      image/png and the JPEG encoder shrinks them, so the job succeeds on
      the third turn with node "9", out.png and image/jpeg, whatever the
      trace holds after that turn. */
  lemma ShrinkingJpegScenario(env: ImageEnv, polls: seq<Poll>, body: seq<byte>, out: seq<byte>)
    requires env.cfg == Config("JPEG", 82) && env.pillow.available
    requires |body| == 5000
    requires forall q :: env.view(q) == FetchReplied(200, body, Some("image/png"))
    requires forall plan :: env.pillow.encode(body, plan) == Encoded(out)
    requires 0 < |out| < |body|
    requires |polls| >= 3
    requires polls[0] == Poll(0.0, HistoryReplied(404, HistoryUnreadable("not found")))
    requires polls[1] == Poll(1.5, HistoryReplied(404, HistoryUnreadable("not found")))
    requires polls[2] == Poll(3.0, HistoryReplied(200, HistoryJson(Some(JobEntry(StatusDict(Some("success")), NodeNineOutputs(ScenarioInfo()))))))
    ensures ImageJobOutcome(ImageJob(true, None, MaxWaitAbsent, None), env,
                            SubmitReplied(200, "", SubmitJson(Some("abc"))), polls)
         == Some(Succeeded("abc", None, "9", Some("out.png"), "image/jpeg", |out|, out))
  {
    var job := ImageJob(true, None, MaxWaitAbsent, None);
    var submit := SubmitReplied(200, "", SubmitJson(Some("abc")));
    var ctx := PollContext("abc", 300, ["9"], None);
    assert SubmitPhase(job, submit) == Accepted(ctx);
    var o := Succeeded("abc", None, "9", Some("out.png"), "image/jpeg", |out|, out);
    ScenarioThirdTurn(ctx, env, polls[2], body, out);
    ScenarioTurns(ctx, env, polls, o);
  }

  lemma ScenarioTurns(ctx: PollContext, env: ImageEnv, polls: seq<Poll>, o: ImageOutcome)
    requires ctx.maxWait == 300 && |polls| >= 3
    requires polls[0] == Poll(0.0, HistoryReplied(404, HistoryUnreadable("not found")))
    requires polls[1] == Poll(1.5, HistoryReplied(404, HistoryUnreadable("not found")))
    requires ImageStep(ctx, env, polls[2]) == Finish(o)
    ensures Drive((p: Poll) => ImageStep(ctx, env, p), polls) == Some(o)
  {
    var step := (p: Poll) => ImageStep(ctx, env, p);
    HistoryNotReadyKeepsPolling(ctx, env, polls[0]);
    HistoryNotReadyKeepsPolling(ctx, env, polls[1]);
    ThirdTurnFinishes(step, polls, o);
  }

  lemma ThirdTurnFinishes<O>(step: Poll -> Step<O>, polls: seq<Poll>, o: O)
    requires |polls| >= 3
    requires step(polls[0]).KeepPolling? && step(polls[1]).KeepPolling? && step(polls[2]) == Finish(o)
    ensures Drive(step, polls) == Some(o)
  {
    forall j | 0 <= j < 2
      ensures step(polls[j]).KeepPolling?
    {
      if j == 1 { assert polls[j] == polls[1]; }
    }
    DriveFirstFinish(step, polls, 2, o);
  }

  lemma ScenarioThirdTurn(ctx: PollContext, env: ImageEnv, p: Poll, body: seq<byte>, out: seq<byte>)
    requires ctx == PollContext("abc", 300, ["9"], None)
    requires env.cfg == Config("JPEG", 82) && env.pillow.available
    requires |body| == 5000
    requires forall q :: env.view(q) == FetchReplied(200, body, Some("image/png"))
    requires forall plan :: env.pillow.encode(body, plan) == Encoded(out)
    requires 0 < |out| < |body|
    requires p == Poll(3.0, HistoryReplied(200, HistoryJson(Some(JobEntry(StatusDict(Some("success")), NodeNineOutputs(ScenarioInfo()))))))
    ensures ImageStep(ctx, env, p) == Finish(Succeeded("abc", None, "9", Some("out.png"), "image/jpeg", |out|, out))
  {
    NodeNineResolves(ScenarioInfo());
    ScenarioNotError();
    var t := NormalizeContentType(Some("image/png"));
    ScenarioDownloads(env.view, body);
    ScenarioCompresses(body, t, env.cfg, env.pillow, out);
    var entry := JobEntry(StatusDict(Some("success")), NodeNineOutputs(ScenarioInfo()));
    StepSucceeds(ctx, env, p, entry, Found(ScenarioInfo(), "9"), body, t);
  }

  function ScenarioInfo(): ImageInfo {
    ImageInfo(Some("out.png"), Some(""), Some("output"), false)
  }

  /** Outputs whose only node, "9", lists one descriptor. */
  function NodeNineOutputs(info: ImageInfo): OutputsField {
    OutputsDict([("9", NodeDict(MediaList([DictElement(info)]), MediaAbsent))])
  }

  lemma NodeNineResolves(info: ImageInfo)
    ensures Resolve(NodeNineOutputs(info), ["9"]) == Some(Found(info, "9"))
  {
    var e := NodeNineOutputs(info).entries;
    assert Keys(e) == ["9"];
    assert Remaining(["9"], ["9"]) == [];
    assert CandidateOrder(["9"], Keys(e)) == ["9"];
    assert Lookup(e, "9") == Some(e[0].1);
  }

  lemma ScenarioDownloads(view: seq<(string, string)> -> FetchReply, body: seq<byte>)
    requires |body| == 5000
    requires forall q :: view(q) == FetchReplied(200, body, Some("image/png"))
    ensures DownloadImage(ScenarioInfo(), view) == Downloaded(body, NormalizeContentType(Some("image/png")))
  {
    var info := ScenarioInfo();
    assert Truthy(info.filename);
    var q := ViewQuery(info);
    assert view(q) == FetchReplied(200, body, Some("image/png"));
  }

  lemma ScenarioNotError()
    ensures !IsErrorStatus(Some("success"))
  {
    assert Lower("success")[0] == 's';
  }

  lemma ScenarioCompresses(body: seq<byte>, t: string, cfg: Config, pillow: Pillow, out: seq<byte>)
    requires cfg == Config("JPEG", 82) && pillow.available && |body| == 5000
    requires forall plan :: pillow.encode(body, plan) == Encoded(out)
    requires 0 < |out| < |body|
    ensures CompressImageBytes(body, t, cfg, pillow) == Compressed(out, "image/jpeg", None)
  {
    assert IsJpeg(TargetFormat(cfg.format));
    assert |out| <= InflationLimit(|body|);
  }
}
