/** Where the two handlers part ways on the same history reply: which
    status counts as an execution error, and what an entry without a media
    file means. */
module Flows {
  import opened Backend
  import opened Strings
  import opened Polling
  import opened Resolver
  import Image = ImageHandler
  import Audio = AudioHandler

  /** A history turn answered 200, before the deadline, with the entry. */
  predicate EntryTurn(p: Poll, entry: JobEntry, deadline: int) {
    && p.elapsed <= deadline as real
    && p.history == HistoryReplied(200, HistoryJson(Some(entry)))
  }

  /** "ERROR" in upper case stops the image flow with an execution error,
      while the audio flow compares case-sensitively and goes on to the
      outputs, ending with some other outcome. */
  lemma UpperCaseErrorContrast(ctx: Image.PollContext, env: Image.ImageEnv, pid: string,
                               p: Poll, outputs: OutputsField)
    requires EntryTurn(p, JobEntry(StatusDict(Some("ERROR")), outputs), ctx.maxWait)
    requires EntryTurn(p, JobEntry(StatusDict(Some("ERROR")), outputs), Audio.MaxWait)
    ensures Image.ImageStep(ctx, env, p) == Finish(Image.ExecutionFailed(StatusDict(Some("ERROR")), ctx.promptId))
    ensures Audio.AudioStep(pid, p).Finish? && !Audio.AudioStep(pid, p).outcome.ExecutionFailed?
  {
    assert Lower("ERROR") == "error";
    assert "ERROR" != "error" by { assert "ERROR"[0] != "error"[0]; }
  }

  /** An entry whose outputs have no media yet: the image flow keeps
      polling until its deadline, the audio flow ends at once with
      "No audio in outputs". */
  lemma NoMediaYetContrast(ctx: Image.PollContext, env: Image.ImageEnv, pid: string, p: Poll)
    requires EntryTurn(p, JobEntry(StatusDict(None), OutputsDict([])), ctx.maxWait)
    requires EntryTurn(p, JobEntry(StatusDict(None), OutputsDict([])), Audio.MaxWait)
    ensures Image.ImageStep(ctx, env, p) == KeepPolling
    ensures Audio.AudioStep(pid, p) == Finish(Audio.NoAudio(OutputsDict([])))
    ensures Audio.NoAudio(OutputsDict([])).ErrorText() == Some("No audio in outputs")
  {
    assert Lower("") == "";
    var noEntries: seq<(string, NodeRecord)> := [];
    assert Keys(noEntries) == [];
    assert CandidateOrder(ctx.preferred, Keys(noEntries)) == ctx.preferred + [];
    assert ctx.preferred + [] == ctx.preferred;
    assert Resolve(OutputsDict(noEntries), ctx.preferred) == FirstQualifying(noEntries, ctx.preferred);
    FirstQualifyingIsFirst(noEntries, ctx.preferred);
  }

  /** On a turn past both deadlines each flow times out, and only the image
      flow's reply names the prompt_id. */
  lemma TimeoutContrast(ctx: Image.PollContext, env: Image.ImageEnv, pid: string, p: Poll)
    requires p.elapsed > ctx.maxWait as real && p.elapsed > Audio.MaxWait as real
    ensures Image.ImageStep(ctx, env, p).Finish?
    ensures Image.ImageStep(ctx, env, p).outcome.PromptIdEntry() == Some(ctx.promptId)
    ensures Audio.AudioStep(pid, p).Finish?
    ensures Audio.AudioStep(pid, p).outcome.PromptIdEntry() == None
    ensures Audio.AudioStep(pid, p).outcome.ErrorText() == Some("Timeout")
  {
  }
}
