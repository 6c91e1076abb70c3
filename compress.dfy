/** Re-encoding policy of the image flow (`compress_image_bytes`): which
    inputs pass through untouched, which encoder settings are used, and
    when the encoded result is kept.  Pillow itself is the parameter
    `pillow`: whether it could be imported, whether a decoded image has an
    alpha band, and the encoder from source bytes and settings to output. */
module Compress {
  import opened Backend

  /** OUTPUT_IMAGE_FORMAT after strip().upper(), and OUTPUT_IMAGE_QUALITY
      after int() (82 when that failed or the variable was unset). */
  datatype Config = Config(format: string, quality: int)

  /** The encoder call that `compress_image_bytes` makes.  JPEG: the image is
      converted to RGB, and an image with alpha is first pasted onto an
      opaque white canvas through its alpha mask; encoded with optimize and
      progressive set.  WEBP: converted to RGBA when it has alpha, RGB
      otherwise; encoded with method=6. */
  datatype EncodePlan =
    | JpegPlan(quality: int, flattenOnWhite: bool)
    | WebpPlan(quality: int, keepAlpha: bool)

  /** What decoding and encoding produced: the output buffer, or the text of
      the exception raised by Image.open, convert, paste or save. */
  datatype CodecReply = Encoded(bytes: seq<byte>) | CodecRaised(message: string)

  datatype Pillow = Pillow(
    available: bool,
    hasAlpha: seq<byte> -> bool,
    encode: (seq<byte>, EncodePlan) -> CodecReply)

  datatype Compressed = Compressed(bytes: seq<byte>, contentType: string, note: Option<string>)

  const MinCompressBytes: nat := 1000

  /** max(1, min(100, quality)) */
  function ClampQuality(q: int): (r: int)
    ensures 1 <= r <= 100
    ensures 1 <= q <= 100 ==> r == q
    ensures q < 1 ==> r == 1
    ensures q > 100 ==> r == 100
  {
    if q < 1 then 1 else if q > 100 then 100 else q
  }

  predicate SupportedFormat(f: string) {
    f == "JPEG" || f == "JPG" || f == "WEBP"
  }

  /** The configured format when it is one the flow supports, else JPEG. */
  function TargetFormat(f: string): (r: string)
    ensures SupportedFormat(r)
    ensures SupportedFormat(f) ==> r == f
    ensures !SupportedFormat(f) ==> r == "JPEG"
  {
    if SupportedFormat(f) then f else "JPEG"
  }

  predicate IsJpeg(f: string) {
    f == "JPEG" || f == "JPG"
  }

  function PlanFor(cfg: Config, hasAlpha: bool): (p: EncodePlan)
    ensures p.quality == ClampQuality(cfg.quality)
    ensures p.JpegPlan? <==> IsJpeg(TargetFormat(cfg.format))
    ensures p.JpegPlan? ==> p.flattenOnWhite == hasAlpha
    ensures p.WebpPlan? ==> p.keepAlpha == hasAlpha
  {
    var q := ClampQuality(cfg.quality);
    if IsJpeg(TargetFormat(cfg.format)) then JpegPlan(q, hasAlpha) else WebpPlan(q, hasAlpha)
  }

  /** The content type the encoder's output is reported with. */
  function TargetType(cfg: Config): (t: string)
    ensures t == "image/jpeg" <==> IsJpeg(TargetFormat(cfg.format))
    ensures t == "image/jpeg" || t == "image/webp"
  {
    if IsJpeg(TargetFormat(cfg.format)) then "image/jpeg" else "image/webp"
  }

  /** int(n * 1.10), taken as the exact value floor(11 n / 10). */
  function InflationLimit(n: nat): (limit: nat)
    ensures n <= limit
    ensures limit * 10 <= n * 11 < limit * 10 + 10
  {
    n * 11 / 10
  }

  /** The oversize test `len(compressed) > int(len(original) * 1.10)` is the
      integer comparison `compressed * 10 > original * 11`. */
  lemma {:induction false} OversizeRule(compressed: nat, original: nat)
    ensures compressed > InflationLimit(original) <==> compressed * 10 > original * 11
  {
    var q := original * 11 / 10;
    var m := original * 11 % 10;
    assert original * 11 == q * 10 + m && 0 <= m < 10;
    if compressed > q {
      assert compressed >= q + 1;
      assert compressed * 10 >= q * 10 + 10;
    } else {
      assert compressed * 10 <= q * 10;
    }
  }

  /** An encoder result the policy keeps: non-empty and at most 110% of the
      original size. */
  predicate Acceptable(reply: CodecReply, original: nat) {
    reply.Encoded? && |reply.bytes| > 0 && |reply.bytes| <= InflationLimit(original)
  }

  /** compress_image_bytes.  Below 1000 bytes, or without Pillow, the input
      passes through; otherwise the encoder's output is kept exactly when it
      is acceptable, and every other outcome hands back the original bytes
      and type with a note saying why. */
  function CompressImageBytes(bytes: seq<byte>, contentType: string, cfg: Config, pillow: Pillow): (r: Compressed)
    ensures |bytes| < MinCompressBytes ==> r == Compressed(bytes, contentType, None)
    ensures |bytes| >= MinCompressBytes && !pillow.available ==>
      r == Compressed(bytes, contentType, Some("Pillow not available, skipping compression"))
    ensures r.note.Some? ==> r.bytes == bytes && r.contentType == contentType
    ensures |bytes| >= MinCompressBytes && pillow.available ==>
      var reply := pillow.encode(bytes, PlanFor(cfg, pillow.hasAlpha(bytes)));
      && (r.note.None? <==> Acceptable(reply, |bytes|))
      && (r.note.None? ==> r == Compressed(reply.bytes, TargetType(cfg), None))
  {
    if |bytes| < MinCompressBytes then Compressed(bytes, contentType, None)
    else if !pillow.available then
      Compressed(bytes, contentType, Some("Pillow not available, skipping compression"))
    else
      match pillow.encode(bytes, PlanFor(cfg, pillow.hasAlpha(bytes)))
      case CodecRaised(e) => Compressed(bytes, contentType, Some("Compression failed: " + e))
      case Encoded(out) =>
        if |out| == 0 then Compressed(bytes, contentType, Some("Compression produced empty payload"))
        else if |out| > InflationLimit(|bytes|) then
          Compressed(bytes, contentType, Some("Compressed image larger than original, using original"))
        else Compressed(out, TargetType(cfg), None)
  }

  /** Exactly two kinds of outcome: the original bytes with the original
      type, or non-empty encoded bytes, no larger than 110% of the input,
      typed image/jpeg for JPEG and JPG and image/webp for WEBP. */
  lemma CompressTwoOutcomes(bytes: seq<byte>, contentType: string, cfg: Config, pillow: Pillow)
    ensures var r := CompressImageBytes(bytes, contentType, cfg, pillow);
      || (r.bytes == bytes && r.contentType == contentType)
      || (&& r.note.None?
          && 0 < |r.bytes|
          && |r.bytes| * 10 <= |bytes| * 11
          && r.contentType == (if IsJpeg(TargetFormat(cfg.format)) then "image/jpeg" else "image/webp"))
  {
    var r := CompressImageBytes(bytes, contentType, cfg, pillow);
    if !(r.bytes == bytes && r.contentType == contentType) {
      OversizeRule(|r.bytes|, |bytes|);
    }
  }

  /** For an input of at least 1000 bytes the result, encoded or not, is
      never empty and never more than 110% of the input. */
  lemma CompressedSize(bytes: seq<byte>, contentType: string, cfg: Config, pillow: Pillow)
    requires |bytes| >= MinCompressBytes
    ensures var r := CompressImageBytes(bytes, contentType, cfg, pillow);
      0 < |r.bytes| && |r.bytes| * 10 <= |bytes| * 11
  {
    var r := CompressImageBytes(bytes, contentType, cfg, pillow);
    OversizeRule(|r.bytes|, |bytes|);
  }
}
