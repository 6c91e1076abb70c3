# ComfyUI serverless job handlers in Dafny

This project models the two job handlers of a serverless worker that drives a
ComfyUI backend:

- The image handler is `handler` in handler-z-image.py. It checks the job and
  submits the workflow to POST /prompt. It then polls GET /history/{prompt_id}
  until a deadline and resolves the first image descriptor among the output
  nodes. It downloads that image from GET /view, re-encodes it as JPEG or WEBP
  when that does not inflate it, and reports the result.
- The audio handler is `handler` in handler.py. It checks the job, then probes
  five file-system locations for the model file and submits the workflow. It
  polls the history for up to 600 seconds and reports the first audio file of
  node "8" as a /view URL.

The backend is never called. Every answer it could give is a value:

- The reply to POST /prompt is the value `submit`.
- The poll loop is driven by a finite trace of `Poll`s. Each `Poll` holds the
  elapsed-time reading of that loop turn and the history reply of that turn.
- GET /view is the function `view`, from the query parameters to the reply.
- Pillow is the value `pillow`. It records whether the import succeeded and
  whether a decoded image has an alpha band. It also holds the encoder, which
  maps the source bytes and the encoder settings to output bytes or an
  exception text.
- `os.path.exists` is the predicate `pathExists`.
- Loosely typed JSON documents become tagged variants. "Absent", "not a dict"
  and "not a list" each have their own constructor.

Each handler has three parts:

- a pure specification of one loop turn (`ImageStep`, `AudioStep`);
- a pure specification of the submit phase (`SubmitPhase`);
- an imperative `Handler` method that follows the Python control flow
  statement by statement, proved equal to the specification over every trace.

`Polling.Drive` runs a turn function over a trace. It returns `None` when the
trace ends while the loop would still be polling.

Modules:

- `Strings`: the Python string operations that the code uses.
- `Backend`: documents and observations.
- `Polling`: the generic poll loop.
- `Resolver`: `extract_first_image_info`.
- `Download`: `download_image_from_comfyui`.
- `Compress`: `compress_image_bytes`.
- `ImageHandler` and `AudioHandler`: the two handlers.
- `Flows`: where the two handlers treat the same history reply differently.

Behaviours of the code that a reader might not expect:

- **Preferred output node ids.** They are not de-duplicated
  (handler-z-image.py:108-111). A repeated id never changes which node is
  found (`Resolver.DuplicatePreferenceIgnored`).
- **Payloads under 1000 bytes.** They come back from compression with no
  note (handler-z-image.py:164-165).
- **Error status.** The audio flow compares status_str exactly
  (handler.py:136), so "ERROR" is not an execution error there
  (`Flows.UpperCaseErrorContrast`). The image flow lower-cases it first
  (handler-z-image.py:262).
- **An empty image descriptor.** `{}` is falsy, so the image flow keeps
  polling on it (handler-z-image.py:273). A descriptor with keys that are all
  null, such as `{"filename": null}`, is truthy: the turn fails with
  "Missing filename…" (`ImageHandler.NullFilenameDescriptorFails`).

## Model

| member | source | states |
|---|---|---|
| Strings.LowerNormalises | handler-z-image.py:156 | lower() leaves no ASCII capital, is idempotent, and leaves text without ASCII capitals unchanged |
| Strings.LowerKeeps | handler-z-image.py:156 | lower() neither adds nor removes a non-letter such as ';', and keeps whitespace at both ends as it was |
| Strings.Lower | handler-z-image.py:156 | lower() keeps the length and maps each character on its own, upper-case ASCII letters to lower case |
| Strings.Strip | handler-z-image.py:156 | strip() returns a contiguous slice of its input with no whitespace at either end, and everything it removes from either end is whitespace |
| Strings.StripKeepsOut | handler-z-image.py:156 | strip() introduces no character its input lacks |
| Strings.StripFixedPoint | handler-z-image.py:156 | strip() leaves a string unchanged exactly when it is empty or has no whitespace at either end; strip() is idempotent |
| Strings.BeforeFirst | handler-z-image.py:156 | split(";")[0] is the longest prefix without ';', and the input continues with ';' when the prefix is shorter |
| Strings.NatToString | handler-z-image.py:154 | the decimal text of a length is non-empty, all digits, "0" for zero and otherwise without a leading zero |
| Strings.NatToStringRoundTrip | handler-z-image.py:154 | parsing the decimal text of n gives n back |
| Strings.NatToStringInjective | handler-z-image.py:154 | distinct lengths are reported with distinct texts |
| Strings.IntToString | handler-z-image.py:150 | the text of an HTTP status is its decimal text, with a leading '-' exactly when the status is negative |
| Backend.Keys | handler-z-image.py:111 | outputs.keys() lists every node id once per entry, in insertion order |
| Backend.Lookup | handler-z-image.py:114 | outputs.get(key) finds a record exactly when key is a node id, and then returns a record stored under key |
| Backend.LookupFindsEntry | handler-z-image.py:114 | with distinct keys, looking up the id of any entry returns that entry's record |
| Backend.Truthy | handler-z-image.py:133 | the truthiness of an optional text: present and non-empty, as `if subfolder:` and `if not filename:` test it (stated through ViewQuery and DownloadImage) |
| Backend.ImageInfo.NonEmpty | handler-z-image.py:273 | the truthiness of a descriptor dict: it has at least one key, even a null one (stated by KeepPollingCases and NullFilenameDescriptorFails) |
| Polling.DriveFirstFinish | handler-z-image.py:245-308 | the loop ends on the first turn that does not keep polling, with that turn's outcome; later turns are never looked at |
| Polling.DriveUnfinished | handler-z-image.py:245-308 | the loop is still running at the end of a trace exactly when every turn of the trace kept polling |
| Polling.DriveSkip | handler-z-image.py:253-258 | a turn that keeps polling can be dropped without changing the outcome |
| Polling.DriveOutcomeWitness | handler-z-image.py:245-308 | every outcome of the loop is the outcome of some single turn of the trace |
| Polling.Drive | handler-z-image.py:245-308 | the loop over a trace: the outcome of the first turn that finishes, or none when every turn keeps polling (stated by DriveFirstFinish and DriveUnfinished) |
| Resolver.Remaining | handler-z-image.py:111 | the fallback ids are exactly the output ids not among the preferred ids |
| Resolver.RemainingSnoc | handler-z-image.py:111 | the fallback list grows one key at a time, in key order, which is what the building loop keeps invariant |
| Resolver.RemainingDistinct | handler-z-image.py:111 | with distinct output keys, the fallback part lists each id at most once |
| Resolver.CandidateOrder | handler-z-image.py:108-111 | the visiting order starts with the preferred ids as given and then holds exactly the other output ids; an id is visited iff it is preferred or an output id |
| Resolver.FirstQualifying | handler-z-image.py:113-124 | the search over the visiting order returns the first node that offers a descriptor (stated by FirstQualifyingIsFirst and FirstQualifyingAppend) |
| Resolver.Resolve | handler-z-image.py:104-124 | extract_first_image_info: nothing for a non-dict document, else the search over the preferred ids followed by the other output ids (stated by ResolvePreferredThenFallback) |
| Resolver.FirstImage | handler-z-image.py:114-122 | a node offers a descriptor exactly when its record is a dict whose "images" is a non-empty list with a dict first, and that dict is the descriptor |
| Resolver.OrderedNodes | handler-z-image.py:107-111 | the imperative list building returns exactly the visiting order: the preferred ids as given, then the output ids not among them, in key order |
| Resolver.ExtractFirstImageInfo | handler-z-image.py:104-124 | the imperative resolver returns exactly the pure resolution: nothing for a non-dict document, otherwise the first candidate in visiting order that offers a descriptor |
| Resolver.FirstQualifyingAppend | handler-z-image.py:113-124 | searching a + b finds the first match in a if there is one, else the first match in b |
| Resolver.FirstQualifyingIsFirst | handler-z-image.py:113-124 | a found node is a candidate that offers exactly the returned descriptor and every earlier candidate offers none; nothing is found exactly when no candidate offers a descriptor |
| Resolver.SkipNonQualifying | handler-z-image.py:111-124 | leaving out ids that offer nothing does not change the first match |
| Resolver.ResolvePreferredThenFallback | handler-z-image.py:105-124 | a non-dict document yields nothing; otherwise the first preferred node with a descriptor wins, and when none has one, the result is the same as with no preference at all |
| Resolver.FirstQualifyingReaches | handler-z-image.py:113-124 | if some candidate offers a descriptor, the search finds one |
| Resolver.ResolveFindsAny | handler-z-image.py:111-124 | if any output node offers a descriptor, resolution finds one, whatever the preference list |
| Resolver.DuplicateCandidateIgnored | handler-z-image.py:113-124 | visiting a node a second time never changes the first match |
| Resolver.RemainingSameMembers | handler-z-image.py:111 | the fallback ids depend only on which ids are preferred, not on their order or repetition |
| Resolver.DuplicatePreferenceIgnored | handler-z-image.py:108-111 | repeating a preferred id that already appears earlier never changes the resolution, so the list needs no de-duplication |
| Download.ViewQuery | handler-z-image.py:128-137 | the /view parameters are filename, then type (default "output"), then subfolder only when it is truthy |
| Download.NormalizeContentType | handler-z-image.py:156-158 | the normalised content type always starts with "image/" |
| Download.NormalizeContentTypeRule | handler-z-image.py:156-158 | the normalised type is the stripped, lower-cased text before the first ';' of the header (image/png when absent) when that text starts with "image/", and image/png otherwise |
| Download.NormalizedNoParameters | handler-z-image.py:156 | the normalised type carries no ';' parameters |
| Download.NormalizedLowerCase | handler-z-image.py:156 | the normalised type has no ASCII capital |
| Download.NormalizedStripped | handler-z-image.py:156 | the normalised type has no whitespace at either end |
| Download.NormalizedForm | handler-z-image.py:156-158 | the normalised type has no parameters, no ASCII capital and no surrounding whitespace |
| Download.NormalizeKeepsImageType | handler-z-image.py:156-158 | a header that already names an image type in normal form is kept as it is |
| Download.NormalizeContentTypeIdempotent | handler-z-image.py:156-158 | normalising an already normalised type changes nothing |
| Download.NormalizeAbsentHeader | handler-z-image.py:156 | a response without Content-Type is typed image/png |
| Download.DownloadImage | handler-z-image.py:127-160 | a descriptor without a truthy filename fails with "Missing filename…" and makes no request; the download succeeds exactly when /view answers 200 with at least 1000 bytes, and then returns those bytes with the normalised type |
| Download.DownloadFailureTexts | handler-z-image.py:141-153 | once the request is made, a timeout, an exception, a non-200 status and a body under 1000 bytes each fail with their own text: the exception's text, the decimal status, the decimal length |
| Download.DownloadedShape | handler-z-image.py:149-158 | accepted payloads are at least 1000 bytes and typed as an image; a payload under 1000 bytes is rejected whatever the status |
| Compress.ClampQuality | handler-z-image.py:170 | the quality is always within 1..100, is kept when already in range, and out-of-range values go to the nearer bound |
| Compress.TargetFormat | handler-z-image.py:171 | the target format is always JPEG, JPG or WEBP; a supported setting is kept and any other setting becomes JPEG |
| Compress.PlanFor | handler-z-image.py:170-205 | the encoder gets the clamped quality and a JPEG plan exactly when the target format is JPEG or JPG; a JPEG plan flattens onto white and a WEBP plan keeps alpha exactly when the decoded image has an alpha band |
| Compress.TargetType | handler-z-image.py:178-205 | the encoded result is typed image/jpeg exactly when the target format is JPEG or JPG, and image/webp otherwise |
| Compress.InflationLimit | handler-z-image.py:212 | the size limit is floor(11 n / 10): at least n, and the largest integer whose tenfold is at most 11 n (its use is stated by OversizeRule and CompressTwoOutcomes) |
| Compress.OversizeRule | handler-z-image.py:212 | the oversize test against int(n * 1.10) is the integer comparison compressed * 10 > n * 11 |
| Compress.CompressImageBytes | handler-z-image.py:163-217 | input under 1000 bytes passes through with no note; without Pillow it passes through with the Pillow note; every note means pass-through; with Pillow, the encoded result is kept (no note, typed image/jpeg or image/webp) exactly when it is non-empty and at most 110% of the input |
| Compress.CompressTwoOutcomes | handler-z-image.py:163-217 | there are exactly two kinds of outcome: the original bytes and type, or non-empty encoded bytes of at most 110% of the input, typed by the target format |
| Compress.CompressedSize | handler-z-image.py:164-215 | for input of at least 1000 bytes the result is never empty and never above 110% of the input |
| ImageHandler.Handler | handler-z-image.py:220-315 | the imperative handler returns exactly the outcome of the submit phase followed by the poll loop, on every trace |
| ImageHandler.SubmitPhase | handler-z-image.py:222-243 | the checks and the POST /prompt before polling: the workflow test, max_wait's int(), the submit status and the prompt_id test (stated by MissingWorkflowFirst, ImageMaxWaitInvalid, SubmitFailureEndsJob, ImageSubmitRaises and ImageAccepted) |
| ImageHandler.IsErrorStatus | handler-z-image.py:262-263 | status_str lower-cased equals "error" (stated by ErrorStatusOverridesOutputs) |
| ImageHandler.ImageStep | handler-z-image.py:246-308 | one loop turn: the deadline, the history status and id tests, the error status, the resolution, the download and the compression (stated by KeepPollingCases, TimeoutAt, ImageStepRaises, ImageStatusNotDictFaults, ErrorStatusOverridesOutputs, StepDownloadFails and StepSucceeds) |
| ImageHandler.ImageJobOutcome | handler-z-image.py:220-308 | the whole job: the submit phase, then the loop over the trace (stated by Handler, DeadlineEndsLoop and SuccessShape) |
| ImageHandler.ImageOutcome.ErrorText | handler-z-image.py:222-315 | the "error" entry of each result dict: present on every outcome except the success and a shape fault whose text is not modelled; its texts are the source's (stated by MissingWorkflowFirst, SubmitFailureEndsJob's outcomes, StepDownloadFails, the Raises lemmas and TimeoutContrast) |
| ImageHandler.ImageOutcome.PromptIdEntry | handler-z-image.py:246-301 | the "prompt_id" entry: present exactly on the timeout, the execution error, the download error and the success, and then the job's id; absent before an id exists (stated by SubmitFailureEndsJob, StepDownloadFails and TimeoutContrast) |
| ImageHandler.MissingWorkflowFirst | handler-z-image.py:223-225 | without a workflow the job fails with "Missing workflow in job.input", whatever the backend would answer |
| ImageHandler.ImageMaxWaitInvalid | handler-z-image.py:228 | a max_wait that int() rejects ends the job with the exception's text, caught at handler-z-image.py:310-315, before anything is submitted |
| ImageHandler.ImageSubmitRaises | handler-z-image.py:230-238 | an exception from POST /prompt or from reading its reply ends the job with the exception's text (caught at handler-z-image.py:310-315) |
| ImageHandler.ImageAccepted | handler-z-image.py:227-243 | a 200 reply with a truthy prompt_id makes the handler poll for that id with max_wait (300 when absent) and output_node_ids (["9"] when absent), echoing the seed |
| ImageHandler.SubmitFailureEndsJob | handler-z-image.py:235-241 | a non-200 submit fails with the response text, a reply without a truthy prompt_id fails with "No prompt_id…", and neither polls or carries a prompt_id |
| ImageHandler.KeepPollingCases | handler-z-image.py:245-308 | a turn keeps polling exactly when it is before the deadline and the history is non-200, lacks the id, or holds a non-error entry with no truthy descriptor; a descriptor dict with any key, even a null one, is truthy |
| ImageHandler.HistoryNotReadyKeepsPolling | handler-z-image.py:251-258 | before the deadline, a non-200 history or one without the id keeps polling |
| ImageHandler.ImageStepRaises | handler-z-image.py:251-256 | before the deadline, an exception from GET /history or from reading a 200 reply ends the job with the exception's text (caught at handler-z-image.py:310-315) |
| ImageHandler.ImageStatusNotDictFaults | handler-z-image.py:259-262 | before the deadline, an entry whose "status" is not a dict makes the .get call raise, and the job ends with the exception caught at handler-z-image.py:310-315 |
| ImageHandler.ErrorStatusOverridesOutputs | handler-z-image.py:261-268 | a status_str equal to "error" in any letter case ends the job with the execution error and the prompt_id, whatever the outputs hold |
| ImageHandler.TimeoutAt | handler-z-image.py:246-249 | the first turn past max_wait ends the job with the timeout error carrying max_wait and the prompt_id |
| ImageHandler.DeadlineEndsLoop | handler-z-image.py:245-249 | a trace that reaches a clock reading past max_wait always ends the job |
| ImageHandler.StepSuccessShape | handler-z-image.py:270-305 | a successful turn reports a file_size equal to the length of the non-empty final bytes, an image content type and a truthy filename |
| ImageHandler.SuccessShape | handler-z-image.py:220-305 | every success of the whole handler has that shape |
| ImageHandler.StepSucceeds | handler-z-image.py:270-305 | a turn with a non-error entry, a resolved truthy descriptor and a successful download reports the resolved node and filename with the re-encoded bytes, their type and length |
| ImageHandler.StepDownloadFails | handler-z-image.py:273-280 | a turn with a non-error entry and a resolved truthy descriptor whose download fails ends with that error text, the prompt_id and the descriptor |
| ImageHandler.NullFilenameDescriptorFails | handler-z-image.py:128-133 | a descriptor {"filename": null} at node "9" is truthy (handler-z-image.py:273), so the turn ends with "Missing filename…" instead of polling on |
| ImageHandler.ShrinkingJpegScenario | handler-z-image.py:220-305 | an example run: after two 404 histories, node "9" with out.png, 5000 PNG bytes and a shrinking JPEG encoder give success with node "9", out.png and image/jpeg |
| AudioHandler.AudioUrl | handler.py:153 | the audio URL is the fixed prefix "…/view?filename=", the filename and the fixed suffix "&type=output", with the length of the three |
| AudioHandler.AudioUrlRoundTrip | handler.py:153 | the filename can be read back from the URL |
| AudioHandler.AudioUrlInjective | handler.py:153 | distinct filenames give distinct URLs |
| AudioHandler.PickAudio | handler.py:142-160 | an audio file is reported exactly when node "8" is a dict whose "audio" is a non-empty list starting with a dict with a truthy filename, and it is that filename; the lookup raises exactly when "audio" is truthy and is not a list, or its first element is not a dict |
| AudioHandler.Handler | handler.py:70-165 | the imperative handler, with its model probe that stops at the first existing path, returns exactly the outcome of the submit phase followed by the poll loop |
| AudioHandler.SubmitPhase | handler.py:71-115 | the checks and the POST /prompt before polling: the workflow test, the model probe, the submit status and the prompt_id test (stated by ChecksBeforeSubmit, AnyModelPathSuffices, SubmitFailureEndsJob, AudioSubmitRaises and AudioAccepted) |
| AudioHandler.AudioStep | handler.py:121-162 | one loop turn: the 600-second deadline, the history status and id tests, the exact error status and the node "8" audio lookup (stated by KeepPollingCases, TimeoutAt, AudioStepRaises, AudioStatusNotDictFaults, ErrorStatusExact, AudioStepSucceeds, AudioShapeFaultEnds, NoAudioEndsJob and SuccessNamesNodeEight) |
| AudioHandler.AudioJobOutcome | handler.py:70-162 | the whole job: the submit phase, then the loop over the trace (stated by Handler) |
| AudioHandler.AudioOutcome.ErrorText | handler.py:73-165 | the "error" entry of each result dict: present on every outcome except the success and a shape fault whose text is not modelled; its texts are the source's (stated by the Raises lemmas, NoMediaYetContrast and TimeoutContrast) |
| AudioHandler.AudioOutcome.PromptIdEntry | handler.py:154-158 | the "prompt_id" entry: present exactly on the success, and then the job's id (stated by AudioStepSucceeds and TimeoutContrast) |
| AudioHandler.ModelFound | handler.py:87-94 | the probe succeeds when some one of the five locations exists (stated by ChecksBeforeSubmit and AnyModelPathSuffices) |
| AudioHandler.ChecksBeforeSubmit | handler.py:73-97 | a falsy workflow gives "Missing workflow", and no model at any probed location gives the model-not-found error, whatever the backend would answer |
| AudioHandler.AnyModelPathSuffices | handler.py:79-97 | with a workflow, a model at any one of the five locations means the job is not rejected with the model-not-found error |
| AudioHandler.SubmitFailureEndsJob | handler.py:106-113 | a non-200 submit fails with "ComfyUI error: " and the response text, a reply without a truthy prompt_id fails with "No prompt_id", and neither polls |
| AudioHandler.AudioSubmitRaises | handler.py:99-110 | an exception from POST /prompt or from reading its reply ends the job with the exception's text (caught at handler.py:164-165) |
| AudioHandler.AudioAccepted | handler.py:106-121 | a 200 reply with a truthy prompt_id makes the handler poll for exactly that id |
| AudioHandler.EntryEndsLoop | handler.py:130-160 | the turn whose 200 history holds the id always finishes, so the job has ended by that turn at the latest |
| AudioHandler.KeepPollingCases | handler.py:121-162 | a turn keeps polling exactly when it is within 600 seconds and the history is non-200 or lacks the id |
| AudioHandler.NoAudioEndsJob | handler.py:142-160 | a non-error entry whose node "8" has no usable audio file ends the job with "No audio in outputs" and the outputs |
| AudioHandler.AudioStepSucceeds | handler.py:145-158 | a non-error entry whose node "8" offers an audio file ends the job with success: the /view URL of that file and the prompt_id |
| AudioHandler.AudioShapeFaultEnds | handler.py:145-151 | a non-error entry whose node "8" has a truthy non-list "audio" or a non-dict first element ends the job with the exception caught at handler.py:164-165 |
| AudioHandler.AudioStepRaises | handler.py:125-131 | before 600 seconds, an exception from GET /history or from reading a 200 reply ends the job with the exception's text (caught at handler.py:164-165) |
| AudioHandler.AudioStatusNotDictFaults | handler.py:133-136 | before 600 seconds, an entry whose "status" is not a dict makes the .get call raise, and the job ends with the exception caught at handler.py:164-165 |
| AudioHandler.ErrorStatusExact | handler.py:136-140 | an execution error is reported exactly when status_str is "error" in lower case |
| AudioHandler.SuccessNamesNodeEight | handler.py:145-158 | a success carries the prompt_id and a URL whose filename is the first audio element of node "8" |
| AudioHandler.TimeoutAt | handler.py:121-123 | the first turn past 600 seconds ends the job with "Timeout" |
| Flows.UpperCaseErrorContrast | handler-z-image.py:261-268 | "ERROR" is an execution error for the image flow; the audio flow (handler.py:136) does not treat it as one and ends on the outputs instead |
| Flows.NoMediaYetContrast | handler.py:142-160 | an entry with empty outputs ends the audio flow with "No audio in outputs", while the image flow (handler-z-image.py:307-308) keeps polling |
| Flows.TimeoutContrast | handler.py:122-123 | on a turn past both deadlines both flows end; the audio outcome is "Timeout" with no prompt_id, while the image outcome (handler-z-image.py:248-249) carries the prompt_id |

## Left out

- HTTP and time are out of scope because the backend is never called. The
  requests to /prompt, /history and /view become the values `submit`,
  `polls` and `view`. `time.time()` becomes the elapsed reading in each
  `Poll`. The sleeps between turns (1.5 s and 2 s) have no effect on the
  outcome and are not modelled.
- Request timeouts are represented only by their outcome: the timeout
  exception or the error text that comes with the observation.
- Pillow's decoding and encoding are the parameter `pillow.encode`, because
  image codecs are foreign code. The model states only the settings the
  encoder is called with: format, quality, and flattening onto white or
  keeping alpha.
- base64 encoding of the final image is not modelled. A success carries the
  final bytes (`payload`) that image_base64 encodes.
- URL encoding is not modelled. The /view query is kept as its list of
  key/value pairs.
- Environment variables are read once at import time, and Pillow's import can
  fail. Both are given as `Config` and `pillow.available`.
- `os.path.exists` is the parameter `pathExists`.
- Startup and diagnostics glue is not modelled because it never affects a
  job's result: `wait_for_comfyui`, `log_system_info`,
  `log_startup_diagnostics`, `list_dir`, `check_expected_models`, the
  prints, and `runpod.serverless.start`.
- Exceptions raised by the handler's own indexing or `.get` on a value of
  unexpected shape are `ShapeFault`. The Python text of such an exception is
  not modelled.
- Some shapes the code does not expect are not modelled:
  - a job or job input that is not a dict;
  - a history body or job entry that is not a dict;
  - output_node_ids that is not a list;
  - node ids that are not strings;
  - a filename, subfolder, type or prompt_id that is a number or another
    non-string value. These fields are `Option<string>`, so the model cannot
    hold such a value. Python would send its str(), e.g. `{"filename": 123}`
    is truthy and goes to /view as "123" (handler-z-image.py:132-139), and
    the audio URL would carry "123" (handler.py:153).
  Preferred ids are given as their str() forms, and an empty list stands for a
  falsy value.
- A JSON object with a repeated key is not modelled faithfully. The entry
  sequence can hold the key twice, but Python keeps the last value while
  `Lookup` returns the first. Lemmas that need it assume distinct keys.
- A descriptor whose "type" is JSON null is modelled as having no type, so it
  is sent as "output". Python would send the text "None".
- The audio flow treats outputs that are not a dict as having no node "8",
  and so ends with "No audio in outputs". Python's `"8" in outputs`
  (handler.py:145) tests membership on a list or a string, and raises
  TypeError on null or a number, which handler.py:164-165 turns into its
  text. Neither is modelled.
- A history status block is modelled by its status_str alone. A non-string
  status_str is given by its str() text.
- `Strings.Lower` and `Strings.Strip` cover ASCII letters and the ASCII and
  Latin-1 whitespace characters. Full Unicode case mapping and whitespace are
  not modelled.
- Compress.CompressImageBytes: the test `len(compressed) > int(len(original) * 1.10)`
  is modelled with the exact limit floor(11 n / 10). The product is computed
  in binary floating point, and 1.10 is slightly above 11/10. The rounded
  product keeps the same floor for every payload under about 5·10^14 bytes.
  Only beyond that can the two limits differ.
- `max_wait` is given after Python's int(). A value int() rejects is
  `MaxWaitInvalid`, with its exception text.
