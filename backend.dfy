/** The documents the ComfyUI backend hands back and the observations that
    drive the two job handlers.  Python's loosely typed JSON values become
    tagged variants: each case a handler branches on has its own
    constructor, so "absent", "not a dict" and "not a list" are explicit. */
module Backend {

  newtype byte = x: int | 0 <= x < 256

  datatype Option<T> = None | Some(value: T) {
    function GetOr(default: T): T {
      match this
      case Some(v) => v
      case None => default
    }
  }

  /** Python truthiness of an optional string: absent, null and "" are false. */
  predicate Truthy(s: Option<string>) {
    s.Some? && s.value != ""
  }

  /** An artifact descriptor, i.e. a dict found in a node's media list.
      The three fields the handlers read hold `None` when the key is absent
      or its value is null, as `.get` returns then.  `unrecordedKeys` says
      whether the dict has a key the three fields do not record: a key the
      handlers never read, or one of the three holding null.  So
      `{"filename": null}` is ImageInfo(None, None, None, true), a truthy
      dict, while `{}` is ImageInfo(None, None, None, false). */
  datatype ImageInfo = ImageInfo(
    filename: Option<string>,
    subfolder: Option<string>,
    kind: Option<string>,   // the "type" key
    unrecordedKeys: bool)
  {
    /** Python truthiness of the dict: true unless it is `{}`, i.e. unless
        it has no key at all. */
    predicate NonEmpty() {
      filename.Some? || subfolder.Some? || kind.Some? || unrecordedKeys
    }
  }

  datatype Element = NonDictElement | DictElement(info: ImageInfo)

  /** The value under a media key ("images", "audio") of a node record.
      For a value that is not a list only its truthiness matters. */
  datatype MediaField =
    | MediaAbsent
    | MediaNotList(truthy: bool)
    | MediaList(items: seq<Element>)

  datatype NodeRecord =
    | NodeNotDict
    | NodeDict(images: MediaField, audio: MediaField)

  /** The "outputs" document of one history entry: node id -> record, in
      the dict's insertion order.  An absent "outputs" key is the empty
      document, as `job_data.get("outputs", {})` makes it. */
  datatype OutputsField =
    | OutputsNotDict
    | OutputsDict(entries: seq<(string, NodeRecord)>)

  /** The "status" block of a history entry, modelled by its status_str;
      an absent block is `{}`, i.e. StatusDict(None).  A status_str that is
      not a string is given by its str() text. */
  datatype StatusField =
    | StatusNotDict
    | StatusDict(statusStr: Option<string>)

  datatype JobEntry = JobEntry(status: StatusField, outputs: OutputsField)

  /** What POST /prompt gave back: an exception from the request, or a
      response whose JSON body is read only when its status is 200. */
  datatype SubmitBody = SubmitUnreadable(message: string) | SubmitJson(promptId: Option<string>)
  datatype SubmitReply =
    | SubmitRaised(message: string)
    | SubmitReplied(status: int, text: string, body: SubmitBody)

  /** What GET /history/{prompt_id} gave back; `entry` is history[prompt_id]
      when the id is a key of the returned mapping. */
  datatype HistoryBody = HistoryUnreadable(message: string) | HistoryJson(entry: Option<JobEntry>)
  datatype HistoryReply =
    | HistoryRaised(message: string)
    | HistoryReplied(status: int, body: HistoryBody)

  /** One turn of a poll loop: the clock reading `time.time() - started`
      taken at the top of the turn, and the history reply of that turn. */
  datatype Poll = Poll(elapsed: real, history: HistoryReply)

  /** An exception caught by a handler's outermost `except`: one raised by a
      backend call or a JSON decode, whose message comes with the
      observation, or one raised by the handler's own indexing or `.get`
      on a value of unexpected shape, whose Python text is not modelled. */
  datatype Fault = Raised(message: string) | ShapeFault

  /** outputs.keys(), in insertion order. */
  function Keys(entries: seq<(string, NodeRecord)>): (ks: seq<string>)
    ensures |ks| == |entries|
    ensures forall i :: 0 <= i < |entries| ==> ks[i] == entries[i].0
  {
    seq(|entries|, i requires 0 <= i < |entries| => entries[i].0)
  }

  predicate DistinctKeys(entries: seq<(string, NodeRecord)>) {
    forall i, j :: 0 <= i < j < |entries| ==> entries[i].0 != entries[j].0
  }

  /** outputs.get(key): the record of the first entry with that key. */
  function Lookup(entries: seq<(string, NodeRecord)>, key: string): (r: Option<NodeRecord>)
    ensures r.Some? <==> key in Keys(entries)
    ensures r.Some? ==> exists i :: 0 <= i < |entries| && entries[i] == (key, r.value)
  {
    if entries == [] then None
    else if entries[0].0 == key then Some(entries[0].1)
    else
      assert Keys(entries) == [entries[0].0] + Keys(entries[1..]);
      var r := Lookup(entries[1..], key);
      assert r.Some? ==> exists i :: 0 <= i < |entries[1..]| && entries[1..][i] == (key, r.value);
      r
  }

  /** With distinct keys, looking a key up finds the record stored under it. */
  lemma {:induction false} LookupFindsEntry(entries: seq<(string, NodeRecord)>, i: nat)
    requires DistinctKeys(entries) && i < |entries|
    ensures Lookup(entries, entries[i].0) == Some(entries[i].1)
  {
    if i > 0 {
      assert entries[0].0 != entries[i].0;
      assert entries[1..][i - 1] == entries[i];
      LookupFindsEntry(entries[1..], i - 1);
    }
  }
}
