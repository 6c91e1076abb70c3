/** Artifact retrieval of the image flow (`download_image_from_comfyui`):
    validate the descriptor, ask GET /view for the bytes, reject short
    payloads and normalise the Content-Type header.  The HTTP request
    itself is the parameter `view`, from the query to what came back. */
module Download {
  import opened Backend
  import opened Strings

  /** What `requests.get(view_url, timeout=120)` produced. */
  datatype FetchReply =
    | FetchTimedOut                     // requests.exceptions.Timeout
    | FetchRaised(message: string)      // any other exception, by its str()
    | FetchReplied(status: int, body: seq<byte>, contentType: Option<string>)

  datatype Downloaded =
    | Downloaded(bytes: seq<byte>, contentType: string)
    | DownloadError(message: string)

  const MinImageBytes: nat := 1000
  const MissingFilename := "Missing filename in ComfyUI image output"

  /** The parameters urlencoded into the /view URL, in insertion order:
      filename, type (default "output"), and subfolder only when truthy. */
  function ViewQuery(info: ImageInfo): (q: seq<(string, string)>)
    requires Truthy(info.filename)
    ensures |q| == (if Truthy(info.subfolder) then 3 else 2)
    ensures q[0] == ("filename", info.filename.value)
    ensures q[1] == ("type", info.kind.GetOr("output"))
    ensures |q| == 3 ==> q[2] == ("subfolder", info.subfolder.value)
  {
    [("filename", info.filename.value), ("type", info.kind.GetOr("output"))]
    + (if Truthy(info.subfolder) then [("subfolder", info.subfolder.value)] else [])
  }

  /** The Content-Type header up to its first ';', stripped and
      lower-cased; "image/png" when the header is absent or the result is
      not an image type. */
  function NormalizeContentType(header: Option<string>): (t: string)
    ensures StartsWith(t, "image/")
  {
    var lowered := Lower(Strip(BeforeFirst(header.GetOr("image/png"), ';')));
    if StartsWith(lowered, "image/") then lowered
    else
      assert "image/png"[..6] == "image/";
      "image/png"
  }

  lemma NormalizedNoParameters(header: Option<string>)
    ensures ';' !in NormalizeContentType(header)
  {
    var raw := BeforeFirst(header.GetOr("image/png"), ';');
    if StartsWith(Lower(Strip(raw)), "image/") {
      StripKeepsOut(raw, ';');
      LowerKeeps(Strip(raw), ';');
    } else {
      assert NormalizeContentType(header) == "image/png";
    }
  }

  lemma DefaultTypeLowerCase()
    ensures NoUpper("image/png")
  {
    var png := "image/png";
    forall i | 0 <= i < |png|
      ensures !('A' <= png[i] <= 'Z')
    {
      assert png[i] in "image/png";
    }
  }

  lemma NormalizedLowerCase(header: Option<string>)
    ensures NoUpper(NormalizeContentType(header))
  {
    var raw := BeforeFirst(header.GetOr("image/png"), ';');
    var v := Lower(Strip(raw));
    if StartsWith(v, "image/") {
      LowerNormalises(Strip(raw));
      assert NormalizeContentType(header) == v;
    } else {
      assert NormalizeContentType(header) == "image/png";
      DefaultTypeLowerCase();
    }
  }

  lemma NormalizedStripped(header: Option<string>)
    ensures var t := NormalizeContentType(header); !IsSpace(t[0]) && !IsSpace(t[|t| - 1])
  {
    var raw := BeforeFirst(header.GetOr("image/png"), ';');
    var v := Lower(Strip(raw));
    if StartsWith(v, "image/") {
      LowerStripEnds(raw);
      assert NormalizeContentType(header) == v;
    } else {
      assert NormalizeContentType(header) == "image/png";
      var png := "image/png";
      assert png[0] == 'i' && png[|png| - 1] == 'g';
    }
  }

  lemma LowerStripEnds(raw: string)
    ensures var v := Lower(Strip(raw)); |v| > 0 ==> !IsSpace(v[0]) && !IsSpace(v[|v| - 1])
  {
    LowerKeeps(Strip(raw), ';');
  }

  /** The rule itself, for every header: the text before the first ';',
      stripped and lower-cased, when that names an image type, and
      "image/png" otherwise.  An absent header reads as "image/png". */
  lemma NormalizeContentTypeRule(header: Option<string>)
    ensures var v := Lower(Strip(BeforeFirst(header.GetOr("image/png"), ';')));
      && (StartsWith(v, "image/") ==> NormalizeContentType(header) == v)
      && (!StartsWith(v, "image/") ==> NormalizeContentType(header) == "image/png")
  {
  }

  /** The normalised type carries no parameters, no upper-case letter and
      no surrounding blanks. */
  lemma NormalizedForm(header: Option<string>)
    ensures var t := NormalizeContentType(header);
      ';' !in t && NoUpper(t) && !IsSpace(t[0]) && !IsSpace(t[|t| - 1])
  {
    NormalizedNoParameters(header);
    NormalizedLowerCase(header);
    NormalizedStripped(header);
  }

  /** Normalising an already normalised type changes nothing: the header
      text the flow reports is a fixed point of the rule. */
  lemma NormalizeContentTypeIdempotent(header: Option<string>)
    ensures NormalizeContentType(Some(NormalizeContentType(header))) == NormalizeContentType(header)
  {
    NormalizedForm(header);
    NormalizeKeepsImageType(NormalizeContentType(header));
  }

  /** A header that already names an image type in normal form is kept. */
  lemma NormalizeKeepsImageType(t: string)
    requires StartsWith(t, "image/") && ';' !in t && NoUpper(t)
    requires !IsSpace(t[|t| - 1])
    ensures NormalizeContentType(Some(t)) == t
  {
    assert BeforeFirst(t, ';') == t;
    assert !IsSpace(t[0]);
    StripFixedPoint(t);
    LowerNormalises(t);
  }

  /** A response without Content-Type is typed "image/png". */
  lemma NormalizeAbsentHeader()
    ensures NormalizeContentType(None) == "image/png"
  {
    assert "image/png"[..6] == "image/" && NoUpper("image/png");
    NormalizeKeepsImageType("image/png");
    assert NormalizeContentType(None) == NormalizeContentType(Some("image/png"));
  }

  /** download_image_from_comfyui without the HTTP call: no request is made
      for a descriptor without filename; the download succeeds exactly when
      /view answers 200 with at least 1000 bytes, and then hands back those
      bytes with the normalised content type. */
  function DownloadImage(info: ImageInfo, view: seq<(string, string)> -> FetchReply): (r: Downloaded)
    ensures !Truthy(info.filename) ==> r == DownloadError(MissingFilename)
    ensures r.Downloaded? <==>
      Truthy(info.filename)
      && view(ViewQuery(info)).FetchReplied?
      && view(ViewQuery(info)).status == 200
      && |view(ViewQuery(info)).body| >= MinImageBytes
    ensures r.Downloaded? ==>
      r.bytes == view(ViewQuery(info)).body
      && r.contentType == NormalizeContentType(view(ViewQuery(info)).contentType)
  {
    if !Truthy(info.filename) then DownloadError(MissingFilename)
    else match view(ViewQuery(info))
      case FetchTimedOut => DownloadError("Timeout downloading image from ComfyUI /view")
      case FetchRaised(e) => DownloadError("Error downloading image from ComfyUI /view: " + e)
      case FetchReplied(status, body, header) =>
        if status != 200 then DownloadError("ComfyUI /view returned HTTP " + IntToString(status))
        else if |body| < MinImageBytes then
          DownloadError("Downloaded image is too small (" + NatToString(|body|) + " bytes)")
        else Downloaded(body, NormalizeContentType(header))
  }

  /** The error texts of a request that was made: the timeout, any other
      exception by its text, a non-200 status by its decimal text, and a
      short body by its length. */
  lemma DownloadFailureTexts(info: ImageInfo, view: seq<(string, string)> -> FetchReply)
    requires Truthy(info.filename)
    ensures view(ViewQuery(info)) == FetchTimedOut ==>
      DownloadImage(info, view) == DownloadError("Timeout downloading image from ComfyUI /view")
    ensures view(ViewQuery(info)).FetchRaised? ==>
      DownloadImage(info, view)
        == DownloadError("Error downloading image from ComfyUI /view: " + view(ViewQuery(info)).message)
    ensures view(ViewQuery(info)).FetchReplied? && view(ViewQuery(info)).status != 200 ==>
      DownloadImage(info, view)
        == DownloadError("ComfyUI /view returned HTTP " + IntToString(view(ViewQuery(info)).status))
    ensures view(ViewQuery(info)).FetchReplied? && view(ViewQuery(info)).status == 200
            && |view(ViewQuery(info)).body| < MinImageBytes ==>
      DownloadImage(info, view)
        == DownloadError("Downloaded image is too small (" + NatToString(|view(ViewQuery(info)).body|) + " bytes)")
  {
  }

  /** Every payload the download accepts is at least 1000 bytes long and is
      typed as an image; a short payload is rejected whatever its status. */
  lemma DownloadedShape(info: ImageInfo, view: seq<(string, string)> -> FetchReply)
    ensures DownloadImage(info, view).Downloaded? ==>
      |DownloadImage(info, view).bytes| >= MinImageBytes
      && StartsWith(DownloadImage(info, view).contentType, "image/")
    ensures (Truthy(info.filename) && view(ViewQuery(info)).FetchReplied?
             && |view(ViewQuery(info)).body| < MinImageBytes)
            ==> DownloadImage(info, view).DownloadError?
  {
  }
}
