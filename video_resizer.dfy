/**
 * The Python video resizer: it downloads the video named by the event's key
 * to `/tmp`, opens it, and then, without any filter on the key, calls
 * `save_frame` and uploads the file as a JPEG five times, and resizes the
 * clip, writes and uploads an MP4 rendition five times, each call given its
 * table size (reversed for a vertical video) and each temp file removed right
 * after its upload; finally it removes the download and closes the clip, and
 * answers with status 200.
 *
 * There is no `try`: the first call that raises ends the invocation, and
 * nothing after it, cleanup included, is issued. Derived keys use Python's
 * `str.replace`, which replaces every occurrence.
 *
 * The storage calls, the filesystem and the video library are inputs
 * (`Env`); the handler returns its answer and the log of the calls it issued.
 */
module VideoResizer {
  import opened Text
  import opened Trace
  import opened Orientation

  /** A row of a size table: the key suffix and the nominal landscape size. */
  datatype Size = Size(suffix: string, width: nat, height: nat)

  const Resolutions: seq<Size> := [
    Size("-240p.mp4", 426, 240),
    Size("-360p.mp4", 640, 360),
    Size("-480p.mp4", 854, 480),
    Size("-720p.mp4", 1280, 720),
    Size("-1080p.mp4", 1920, 1080)
  ]

  const ThumbnailSizes: seq<Size> := [
    Size("-xs.jpg", 320, 240),
    Size("-sm.jpg", 640, 480),
    Size("-md.jpg", 800, 600),
    Size("-lg.jpg", 1024, 768),
    Size("-xl.jpg", 1280, 960)
  ]

  const JpegType: string := "image/jpeg"

  const Mp4Type: string := "video/mp4"

  const SuccessBody: string := "Thumbnails and video resolutions generated and uploaded successfully"

  /** The clip's `size`: width, then height. */
  datatype Dimensions = Dimensions(width: int, height: int)

  datatype Op =
    | Download(bucket: string, key: string, path: string)
    /** Opening the downloaded file as a clip. */
    | OpenClip(path: string)
    /** The `save_frame` call at one second with `size=(width, height)`; whether the library accepts that argument is its reply. */
    | SaveFrame(path: string, width: nat, height: nat)
    | Upload(path: string, bucket: string, key: string, contentType: string)
    | Remove(path: string)
    /** The `clip.resize` call with `newsize=(width, height)`. */
    | Resize(width: nat, height: nat)
    /** `write_videofile` of the resized clip. */
    | WriteVideo(path: string)
    | CloseClip

  /** The two loops of the handler: thumbnails first, then renditions. */
  datatype Kind = Thumbnail | Rendition

  /**
   * What the outside world answers: the download, the opening of the clip
   * with its size, for each iteration of each loop the position of its first
   * call that raises (at or past the iteration's number of calls, none does),
   * and the same for the final removal of the download and closing of the clip.
   */
  datatype Env = Env(download: bool, clip: Reply<Dimensions>,
                     thumbnailSteps: seq<nat>, renditionSteps: seq<nat>, cleanupFailAt: nat)

  /** The handler's answer: an exception, or the returned status code and body. */
  datatype Outcome = Raised | Responded(statusCode: int, body: string)

  datatype Invocation = Invocation(outcome: Outcome, log: seq<Event<Op>>)

  // ---------------------------------------------------------------- naming

  /**
   * What the handler derives from the key: the key, the download path (its
   * last component under `/tmp`), `os.path.splitext(key)[1]`, and the last
   * component with every `.mp4` removed.
   */
  datatype Names = Names(key: string, download: string, ext: string, stem: string)

  function NamesOf(key: string): Names {
    Names(key, "/tmp/" + Basename(key), SplitextExt(key), ReplaceAll(Basename(key), ".mp4", ""))
  }

  /** The thumbnail file of a size; it does not depend on the key. */
  function ThumbnailPath(suffix: string): string {
    "/tmp/thumbnail" + suffix
  }

  /** `key.replace(ext, suffix)`: every occurrence of the extension is replaced. */
  function ThumbnailKey(key: string, ext: string, suffix: string): string {
    ReplaceAll(key, ext, suffix)
  }

  /** The rendition file of a size: the stem, then the suffix, under `/tmp`. */
  function RenditionPath(stem: string, suffix: string): string {
    "/tmp/" + stem + suffix
  }

  /** `key.replace('-org.mp4', suffix)`: every occurrence is replaced. */
  function RenditionKey(key: string, suffix: string): string {
    ReplaceAll(key, "-org.mp4", suffix)
  }

  /**
   * For `base-org.ext` whose extension occurs only at the end, the thumbnail
   * key is `base-org` followed by the suffix: unlike the Node generator, the
   * Python resizer keeps `-org` in thumbnail keys.
   */
  lemma ThumbnailKeyOfOriginal(base: string, e: string, suffix: string)
    requires '/' !in e && '.' !in e && e != []
    requires forall j :: 0 <= j < |base| + 4 ==> !OccursAt(base + "-org" + "." + e, "." + e, j)
    ensures SplitextExt(base + "-org" + "." + e) == "." + e
    ensures ThumbnailKey(base + "-org" + "." + e, SplitextExt(base + "-org" + "." + e), suffix) == base + "-org" + suffix
  {
    var key := base + "-org" + "." + e;
    ExtensionOfName(base + "-org", e);
    assert key == (base + "-org") + ("." + e) + [];
    ReplaceAllSingle(base + "-org", "." + e, [], suffix);
  }

  /**
   * Every occurrence of the extension is replaced: a dot-free name followed by
   * the extension twice gets the suffix twice, where a first-occurrence
   * replacement would leave the second extension in place.
   */
  lemma ThumbnailKeyEveryOccurrence(front: string, ext: string, suffix: string)
    requires |ext| >= 2 && ext[0] == '.' && '/' !in ext && '.' !in ext[1..]
    requires '.' !in front && front != [] && front[|front| - 1] != '/'
    ensures SplitextExt(front + ext + ext) == ext
    ensures ThumbnailKey(front + ext + ext, ext, suffix) == front + suffix + suffix
    ensures ReplaceFirst(front + ext + ext, ext, suffix) == front + suffix + ext
  {
    var e := ext[1..];
    assert ext == "." + e;
    var name := front + ext;
    assert name[|name| - 1] == e[|e| - 1];
    assert front + ext + ext == name + "." + e;
    ExtensionOfName(name, e);
    ReplaceRepeated(front, ext, suffix);
  }

  /** A key without an extension gets the suffix in front of every character and at the end. */
  lemma ThumbnailKeyNoExtension(key: string, suffix: string)
    ensures |ThumbnailKey(key, [], suffix)| == |key| + (|key| + 1) * |suffix|
    ensures ThumbnailKey(key, [], suffix)[..|suffix|] == suffix
    ensures InterleavedWith(ThumbnailKey(key, [], suffix), key, suffix)
  {
    ReplaceAllEmpty(key, suffix);
  }

  /** For `base-org.mp4` with no earlier `-org.mp4`, the rendition key is `base` followed by the suffix. */
  lemma RenditionKeyOfOriginal(base: string, suffix: string)
    requires forall j :: 0 <= j < |base| ==> !OccursAt(base + "-org.mp4", "-org.mp4", j)
    ensures RenditionKey(base + "-org.mp4", suffix) == base + suffix
  {
    assert base + "-org.mp4" == base + "-org.mp4" + [];
    ReplaceAllSingle(base, "-org.mp4", [], suffix);
    assert base + suffix + [] == base + suffix;
  }

  /** Without `-org.mp4` the rendition key is the key itself. */
  lemma RenditionKeyAbsent(key: string, suffix: string)
    requires !Contains(key, "-org.mp4")
    ensures RenditionKey(key, suffix) == key
  {
    ReplaceAllAbsent(key, "-org.mp4", suffix);
  }

  // ----------------------------------------------------------- orientation

  /** `clip.size[0] < clip.size[1]`. */
  predicate IsVertical(d: Dimensions) {
    d.width < d.height
  }

  /** The rendition table: 240p to 1080p in that order, all landscape, growing strictly, with `.mp4` suffixes. */
  lemma ResolutionTable()
    ensures |Resolutions| == 5
    ensures [Resolutions[0].suffix, Resolutions[1].suffix, Resolutions[2].suffix,
             Resolutions[3].suffix, Resolutions[4].suffix]
         == ["-240p.mp4", "-360p.mp4", "-480p.mp4", "-720p.mp4", "-1080p.mp4"]
    ensures forall s :: s in Resolutions ==> EndsWith(s.suffix, ".mp4") && s.width > s.height
    ensures forall i :: 0 <= i < 4 ==>
      Resolutions[i].width < Resolutions[i + 1].width && Resolutions[i].height < Resolutions[i + 1].height
  {
  }

  /** The thumbnail table: xs to xl in that order, all landscape, growing strictly, with `.jpg` suffixes. */
  lemma ThumbnailTable()
    ensures |ThumbnailSizes| == 5
    ensures [ThumbnailSizes[0].suffix, ThumbnailSizes[1].suffix, ThumbnailSizes[2].suffix,
             ThumbnailSizes[3].suffix, ThumbnailSizes[4].suffix]
         == ["-xs.jpg", "-sm.jpg", "-md.jpg", "-lg.jpg", "-xl.jpg"]
    ensures forall s :: s in ThumbnailSizes ==> EndsWith(s.suffix, ".jpg") && s.width > s.height
    ensures forall i :: 0 <= i < 4 ==>
      ThumbnailSizes[i].width < ThumbnailSizes[i + 1].width && ThumbnailSizes[i].height < ThumbnailSizes[i + 1].height
  {
  }

  /** Both kinds of output are portrait exactly for a vertical video; a square video keeps landscape sizes. */
  lemma ScaleFollowsOrientation(d: Dimensions, s: Size)
    requires s in ThumbnailSizes || s in Resolutions
    ensures var wh := Oriented(s.width, s.height, IsVertical(d));
      (wh.0 < wh.1 <==> d.width < d.height) && (wh.0 > wh.1 <==> d.width >= d.height)
  {
    assert s.width > s.height;
  }

  // --------------------------------------------------------------- outputs

  /** What one iteration works with: its temp file, its key and its scaled size. */
  datatype Output = Output(path: string, target: string, width: nat, height: nat)

  /** The output of row `s` of a loop of kind `kind`. */
  function OutputOf(n: Names, vertical: bool, kind: Kind, s: Size): Output {
    var wh := Oriented(s.width, s.height, vertical);
    match kind
    case Thumbnail => Output(ThumbnailPath(s.suffix), ThumbnailKey(n.key, n.ext, s.suffix), wh.0, wh.1)
    case Rendition => Output(RenditionPath(n.stem, s.suffix), RenditionKey(n.key, s.suffix), wh.0, wh.1)
  }

  /** The outputs of the rows `ss`, in order. */
  function Outputs(n: Names, vertical: bool, kind: Kind, ss: seq<Size>): (os: seq<Output>)
    ensures |os| == |ss|
    decreases |ss|
  {
    if ss == [] then [] else [OutputOf(n, vertical, kind, ss[0])] + Outputs(n, vertical, kind, ss[1..])
  }

  /** Output `j` is that of row `j`. */
  lemma {:induction false} OutputsAt(n: Names, vertical: bool, kind: Kind, ss: seq<Size>, j: nat)
    requires j < |ss|
    ensures Outputs(n, vertical, kind, ss)[j] == OutputOf(n, vertical, kind, ss[j])
    decreases j
  {
    if j > 0 {
      OutputsAt(n, vertical, kind, ss[1..], j - 1);
    }
  }

  // ------------------------------------------------------------------ runs

  /** The content type of a loop's uploads. */
  function ContentType(kind: Kind): string {
    match kind
    case Thumbnail => JpegType
    case Rendition => Mp4Type
  }

  /** The number of calls of one iteration of a loop. */
  function Width(kind: Kind): nat {
    match kind
    case Thumbnail => 3
    case Rendition => 4
  }

  /**
   * The calls of one iteration, in order: save the frame, upload it, remove
   * it; or resize the clip, write the video, upload it, remove it.
   */
  function OutputOps(bucket: string, kind: Kind, o: Output): (ops: seq<Op>)
    ensures |ops| == Width(kind)
    ensures ops[|ops| - 2] == Upload(o.path, bucket, o.target, ContentType(kind))
    ensures ops[|ops| - 1] == Remove(o.path)
  {
    var upload := Upload(o.path, bucket, o.target, ContentType(kind));
    match kind
    case Thumbnail => [SaveFrame(o.path, o.width, o.height), upload, Remove(o.path)]
    case Rendition => [Resize(o.width, o.height), WriteVideo(o.path), upload, Remove(o.path)]
  }

  /** A loop over the outputs `os`: the first call that raises ends it. */
  function Loop(bucket: string, kind: Kind, os: seq<Output>, steps: seq<nat>): Run<Op>
    requires |steps| == |os|
    decreases |os|
  {
    if os == [] then Run(true, [])
    else Then(Attempt(OutputOps(bucket, kind, os[0]), steps[0]), Loop(bucket, kind, os[1..], steps[1..]))
  }

  /** The final removal of the download and closing of the clip. */
  function Cleanup(download: string, failAt: nat): Run<Op> {
    Attempt([Remove(download), CloseClip], failAt)
  }

  /** The two loops and the cleanup, each only if everything before it returned. */
  function Work(bucket: string, download: string, ts: seq<Output>, rs: seq<Output>, env: Env): Run<Op>
    requires |env.thumbnailSteps| == |ts| && |env.renditionSteps| == |rs|
  {
    Then(Loop(bucket, Thumbnail, ts, env.thumbnailSteps),
         Then(Loop(bucket, Rendition, rs, env.renditionSteps), Cleanup(download, env.cleanupFailAt)))
  }

  /** The answer to a run: status 200 with the fixed body, unless a call raised. */
  function Answer(r: Run<Op>): Invocation {
    Invocation(if r.ok then Responded(200, SuccessBody) else Raised, r.log)
  }

  /** After the download and the opening of the clip, the rest of the invocation. */
  function Opened(bucket: string, n: Names, d: Dimensions, env: Env): Run<Op>
    requires |env.thumbnailSteps| == |ThumbnailSizes| && |env.renditionSteps| == |Resolutions|
  {
    var vertical := IsVertical(d);
    Then(Run(true, [Done(Download(bucket, n.key, n.download)), Done(OpenClip(n.download))]),
         Work(bucket, n.download, Outputs(n, vertical, Thumbnail, ThumbnailSizes), Outputs(n, vertical, Rendition, Resolutions), env))
  }

  /** What one invocation answers and which calls it issues. */
  function Expected(bucket: string, key: string, env: Env): Invocation
    requires |env.thumbnailSteps| == |ThumbnailSizes| && |env.renditionSteps| == |Resolutions|
  {
    var n := NamesOf(key);
    var get := Download(bucket, key, n.download);
    if !env.download then Invocation(Raised, [Failed(get)])
    else match env.clip
      case Threw => Invocation(Raised, [Done(get), Failed(OpenClip(n.download))])
      case Returned(d) => Answer(Opened(bucket, n, d, env))
  }

  // ------------------------------------------------------ loop properties

  /** The loop from output `i` on: iteration `i`, then the loop from `i + 1` on. */
  lemma LoopStep(bucket: string, kind: Kind, os: seq<Output>, steps: seq<nat>, i: nat)
    requires i < |os| && |steps| == |os|
    ensures Loop(bucket, kind, os[i..], steps[i..])
         == Then(Attempt(OutputOps(bucket, kind, os[i]), steps[i]), Loop(bucket, kind, os[i + 1..], steps[i + 1..]))
  {
    assert os[i..][0] == os[i] && steps[i..][0] == steps[i];
    assert os[i..][1..] == os[i + 1..] && steps[i..][1..] == steps[i + 1..];
  }

  /**
   * One more iteration of a loop whose first `i` iterations returned and
   * issued `log`: if it returns, the loop goes on from `i + 1`; if it raises,
   * the loop ends there.
   */
  lemma LoopAdvance(bucket: string, kind: Kind, os: seq<Output>, steps: seq<nat>, i: nat,
                    log: seq<Event<Op>>, stepOk: bool, entries: seq<Event<Op>>)
    requires i < |os| && |steps| == |os|
    requires Then(Run(true, log), Loop(bucket, kind, os[i..], steps[i..])) == Loop(bucket, kind, os, steps)
    requires Run(stepOk, entries) == Attempt(OutputOps(bucket, kind, os[i]), steps[i])
    ensures stepOk ==> Then(Run(true, log + entries), Loop(bucket, kind, os[i + 1..], steps[i + 1..])) == Loop(bucket, kind, os, steps)
    ensures !stepOk ==> Run(false, log + entries) == Loop(bucket, kind, os, steps)
  {
    LoopStep(bucket, kind, os, steps, i);
    ThenAssoc(Run(true, log), Run(stepOk, entries), Loop(bucket, kind, os[i + 1..], steps[i + 1..]));
  }

  /** A loop stops at its first error. */
  lemma {:induction false} LoopStops(bucket: string, kind: Kind, os: seq<Output>, steps: seq<nat>)
    requires |steps| == |os|
    ensures StopsAtFirstError(Loop(bucket, kind, os, steps))
    decreases |os|
  {
    if os != [] {
      LoopStops(bucket, kind, os[1..], steps[1..]);
      AttemptShape(OutputOps(bucket, kind, os[0]), steps[0]);
      ThenStopsAtFirstError(Attempt(OutputOps(bucket, kind, os[0]), steps[0]), Loop(bucket, kind, os[1..], steps[1..]));
    }
  }

  /** A call a loop of kind `kind` may issue; its uploads carry the loop's content type. */
  predicate OfKind(op: Op, kind: Kind) {
    match op
    case SaveFrame(_, _, _) => kind == Thumbnail
    case Resize(_, _) => kind == Rendition
    case WriteVideo(_) => kind == Rendition
    case Upload(_, _, _, contentType) => contentType == ContentType(kind)
    case Remove(_) => true
    case _ => false
  }

  predicate AllOfKind(log: seq<Event<Op>>, kind: Kind) {
    forall i :: 0 <= i < |log| ==> OfKind(log[i].op, kind)
  }

  /** The calls of an iteration are of its loop's kind. */
  lemma OutputOpsOfKind(bucket: string, kind: Kind, o: Output)
    ensures forall i :: 0 <= i < Width(kind) ==> OfKind(OutputOps(bucket, kind, o)[i], kind)
  {
  }

  /** Every call of a loop is one of its kind: thumbnail uploads are JPEG and rendition uploads MP4. */
  lemma {:induction false} LoopCalls(bucket: string, kind: Kind, os: seq<Output>, steps: seq<nat>)
    requires |steps| == |os|
    ensures AllOfKind(Loop(bucket, kind, os, steps).log, kind)
    decreases |os|
  {
    if os != [] {
      var first := Attempt(OutputOps(bucket, kind, os[0]), steps[0]);
      var rest := Loop(bucket, kind, os[1..], steps[1..]);
      AttemptShape(OutputOps(bucket, kind, os[0]), steps[0]);
      OutputOpsOfKind(bucket, kind, os[0]);
      LoopCalls(bucket, kind, os[1..], steps[1..]);
      var log := Then(first, rest).log;
      forall i | 0 <= i < |log| ensures OfKind(log[i].op, kind) {
        if i < |first.log| {
          var ops := OutputOps(bucket, kind, os[0]);
          assert log[i] == first.log[i];
          assert first.log[i].op == ops[i];
          assert i < Width(kind);
          assert OfKind(ops[i], kind);
        } else {
          assert first.ok;
          assert log[i] == rest.log[i - |first.log|];
          assert OfKind(rest.log[i - |first.log|].op, kind);
        }
      }
    }
  }

  /** The first iteration's block, followed by the blocks of the others. */
  lemma ConsBlocks(bucket: string, kind: Kind, os: seq<Output>, head: seq<Event<Op>>, tail: seq<Event<Op>>)
    requires os != [] && |head| == Width(kind) && BlockAt(head, 0, OutputOps(bucket, kind, os[0]))
    requires |tail| == Width(kind) * (|os| - 1)
    requires forall j :: 0 <= j < |os| - 1 ==> BlockAt(tail, Width(kind) * j, OutputOps(bucket, kind, os[1..][j]))
    ensures |head + tail| == Width(kind) * |os|
    ensures forall j :: 0 <= j < |os| ==> BlockAt(head + tail, Width(kind) * j, OutputOps(bucket, kind, os[j]))
  {
    var w := Width(kind);
    forall j | 0 <= j < |os| ensures BlockAt(head + tail, w * j, OutputOps(bucket, kind, os[j])) {
      if j == 0 {
        BlockExtend(head, tail, 0, OutputOps(bucket, kind, os[0]));
      } else {
        assert os[1..][j - 1] == os[j];
        BlockShift(head, tail, w * (j - 1), OutputOps(bucket, kind, os[j]));
        assert w + w * (j - 1) == w * j;
      }
    }
  }

  /** When a loop succeeds, iteration `j` accounts for the `Width(kind)` calls from `Width(kind) * j`, in order. */
  lemma {:induction false} LoopSucceeded(bucket: string, kind: Kind, os: seq<Output>, steps: seq<nat>)
    requires |steps| == |os|
    requires Loop(bucket, kind, os, steps).ok
    ensures var log := Loop(bucket, kind, os, steps).log;
      && |log| == Width(kind) * |os|
      && forall j :: 0 <= j < |os| ==> BlockAt(log, Width(kind) * j, OutputOps(bucket, kind, os[j]))
    decreases |os|
  {
    if os != [] {
      var first := Attempt(OutputOps(bucket, kind, os[0]), steps[0]);
      var rest := Loop(bucket, kind, os[1..], steps[1..]);
      assert first.ok && rest.ok;
      AttemptShape(OutputOps(bucket, kind, os[0]), steps[0]);
      LoopSucceeded(bucket, kind, os[1..], steps[1..]);
      ConsBlocks(bucket, kind, os, first.log, rest.log);
    }
  }

  /** Once an iteration's upload returned, its next call removes the uploaded file. */
  lemma RemoveFollowsUpload(bucket: string, kind: Kind, o: Output, failAt: nat)
    ensures var log := Attempt(OutputOps(bucket, kind, o), failAt).log;
      forall i :: 0 <= i < |log| && log[i].op.Upload? && log[i].Done? ==> i + 1 < |log| && log[i + 1].op == Remove(o.path)
  {
    var ops := OutputOps(bucket, kind, o);
    var log := Attempt(ops, failAt).log;
    AttemptShape(ops, failAt);
    forall i | 0 <= i < |log| && log[i].op.Upload? && log[i].Done? ensures i + 1 < |log| && log[i + 1].op == Remove(o.path) {
      assert i == |ops| - 2;
    }
  }

  // --------------------------------------------------- handler properties

  /** A cleanup that returns removes the download, then closes the clip. */
  lemma CleanupReturned(download: string, failAt: nat)
    requires Cleanup(download, failAt).ok
    ensures Cleanup(download, failAt).log == [Done(Remove(download)), Done(CloseClip)]
  {
    AttemptShape([Remove(download), CloseClip], failAt);
  }

  /** The two loops and the cleanup stop at their first error. */
  lemma WorkStops(bucket: string, download: string, ts: seq<Output>, rs: seq<Output>, env: Env)
    requires |env.thumbnailSteps| == |ts| && |env.renditionSteps| == |rs|
    ensures StopsAtFirstError(Work(bucket, download, ts, rs, env))
  {
    var thumbs := Loop(bucket, Thumbnail, ts, env.thumbnailSteps);
    var renditions := Loop(bucket, Rendition, rs, env.renditionSteps);
    var cleanup := Cleanup(download, env.cleanupFailAt);
    LoopStops(bucket, Thumbnail, ts, env.thumbnailSteps);
    LoopStops(bucket, Rendition, rs, env.renditionSteps);
    AttemptShape([Remove(download), CloseClip], env.cleanupFailAt);
    ThenStopsAtFirstError(renditions, cleanup);
    ThenStopsAtFirstError(thumbs, Then(renditions, cleanup));
  }

  /** An upload with content type `contentType`. */
  predicate UploadOf(op: Op, contentType: string) {
    op.Upload? && op.contentType == contentType
  }

  predicate NoUploadOf(log: seq<Event<Op>>, contentType: string) {
    forall i :: 0 <= i < |log| ==> !UploadOf(log[i].op, contentType)
  }

  /** The renditions and the cleanup issue no JPEG upload. */
  lemma NoJpegAfterThumbnails(bucket: string, download: string, rs: seq<Output>, env: Env)
    requires |env.renditionSteps| == |rs|
    ensures NoUploadOf(Then(Loop(bucket, Rendition, rs, env.renditionSteps), Cleanup(download, env.cleanupFailAt)).log, JpegType)
  {
    var renditions := Loop(bucket, Rendition, rs, env.renditionSteps);
    var cleanup := Cleanup(download, env.cleanupFailAt);
    LoopCalls(bucket, Rendition, rs, env.renditionSteps);
    AttemptShape([Remove(download), CloseClip], env.cleanupFailAt);
    var log := Then(renditions, cleanup).log;
    forall i | 0 <= i < |log| ensures !UploadOf(log[i].op, JpegType) {
      if i < |renditions.log| {
        assert log[i] == renditions.log[i];
        assert OfKind(renditions.log[i].op, Rendition);
      } else {
        assert log[i] == cleanup.log[i - |renditions.log|];
      }
    }
  }

  /**
   * Every JPEG upload precedes every MP4 upload, whatever raises: the
   * thumbnail loop issues no MP4 upload, and everything after it no JPEG one.
   */
  lemma JpegBeforeMp4(bucket: string, download: string, ts: seq<Output>, rs: seq<Output>, env: Env)
    requires |env.thumbnailSteps| == |ts| && |env.renditionSteps| == |rs|
    ensures forall i, j ::
      (&& 0 <= i < |Work(bucket, download, ts, rs, env).log| && 0 <= j < |Work(bucket, download, ts, rs, env).log|
       && UploadOf(Work(bucket, download, ts, rs, env).log[i].op, JpegType)
       && UploadOf(Work(bucket, download, ts, rs, env).log[j].op, Mp4Type)) ==> i < j
  {
    var thumbs := Loop(bucket, Thumbnail, ts, env.thumbnailSteps);
    var after := Then(Loop(bucket, Rendition, rs, env.renditionSteps), Cleanup(download, env.cleanupFailAt));
    LoopCalls(bucket, Thumbnail, ts, env.thumbnailSteps);
    NoJpegAfterThumbnails(bucket, download, rs, env);
    var log := Then(thumbs, after).log;
    forall i | 0 <= i < |log|
      ensures UploadOf(log[i].op, JpegType) ==> i < |thumbs.log|
      ensures UploadOf(log[i].op, Mp4Type) ==> i >= |thumbs.log|
    {
      if i < |thumbs.log| {
        assert log[i] == thumbs.log[i];
        assert OfKind(thumbs.log[i].op, Thumbnail);
      } else {
        assert log[i] == after.log[i - |thumbs.log|];
      }
    }
  }

  /**
   * When the loops raise, nothing follows the failed call: the download is not
   * removed by the cleanup and the clip is never closed, since there is no
   * `finally`.
   */
  lemma NoCleanupOnError(bucket: string, download: string, ts: seq<Output>, rs: seq<Output>, env: Env)
    requires |env.thumbnailSteps| == |ts| && |env.renditionSteps| == |rs|
    requires !Then(Loop(bucket, Thumbnail, ts, env.thumbnailSteps), Loop(bucket, Rendition, rs, env.renditionSteps)).ok
    ensures !Work(bucket, download, ts, rs, env).ok
    ensures Work(bucket, download, ts, rs, env).log
         == Then(Loop(bucket, Thumbnail, ts, env.thumbnailSteps), Loop(bucket, Rendition, rs, env.renditionSteps)).log
    ensures |Work(bucket, download, ts, rs, env).log| > 0
    ensures Work(bucket, download, ts, rs, env).log[|Work(bucket, download, ts, rs, env).log| - 1].Failed?
    ensures forall i :: 0 <= i < |Work(bucket, download, ts, rs, env).log| ==> Work(bucket, download, ts, rs, env).log[i].op != CloseClip
  {
    var thumbs := Loop(bucket, Thumbnail, ts, env.thumbnailSteps);
    var renditions := Loop(bucket, Rendition, rs, env.renditionSteps);
    var cleanup := Cleanup(download, env.cleanupFailAt);
    ThenAssoc(thumbs, renditions, cleanup);
    WorkStops(bucket, download, ts, rs, env);
    LoopCalls(bucket, Thumbnail, ts, env.thumbnailSteps);
    LoopCalls(bucket, Rendition, rs, env.renditionSteps);
    var log := Then(thumbs, renditions).log;
    forall i | 0 <= i < |log| ensures log[i].op != CloseClip {
      if thumbs.ok && i >= |thumbs.log| {
        assert log[i] == renditions.log[i - |thumbs.log|];
        assert OfKind(renditions.log[i - |thumbs.log|].op, Rendition);
      } else {
        assert log[i] == thumbs.log[i];
        assert OfKind(thumbs.log[i].op, Thumbnail);
      }
    }
  }

  /** The blocks of a successful loop, between any calls before and after it. */
  lemma LoopBlocks(bucket: string, kind: Kind, os: seq<Output>, steps: seq<nat>, head: seq<Event<Op>>, tail: seq<Event<Op>>)
    requires |steps| == |os| && Loop(bucket, kind, os, steps).ok
    ensures |Loop(bucket, kind, os, steps).log| == Width(kind) * |os|
    ensures forall j :: 0 <= j < |os| ==>
      BlockAt(head + (Loop(bucket, kind, os, steps).log + tail), |head| + Width(kind) * j, OutputOps(bucket, kind, os[j]))
  {
    var log := Loop(bucket, kind, os, steps).log;
    LoopSucceeded(bucket, kind, os, steps);
    forall j | 0 <= j < |os| ensures BlockAt(head + (log + tail), |head| + Width(kind) * j, OutputOps(bucket, kind, os[j])) {
      BlockExtend(log, tail, Width(kind) * j, OutputOps(bucket, kind, os[j]));
      BlockShift(head, log + tail, Width(kind) * j, OutputOps(bucket, kind, os[j]));
    }
  }

  /** When the loops and the cleanup all return, the log is the loops' logs, then the removal and the closing. */
  lemma WorkReturned(bucket: string, download: string, ts: seq<Output>, rs: seq<Output>, env: Env)
    requires |env.thumbnailSteps| == |ts| && |env.renditionSteps| == |rs|
    requires Work(bucket, download, ts, rs, env).ok
    ensures Loop(bucket, Thumbnail, ts, env.thumbnailSteps).ok && Loop(bucket, Rendition, rs, env.renditionSteps).ok
    ensures Work(bucket, download, ts, rs, env).log
         == Loop(bucket, Thumbnail, ts, env.thumbnailSteps).log
            + (Loop(bucket, Rendition, rs, env.renditionSteps).log + [Done(Remove(download)), Done(CloseClip)])
  {
    CleanupReturned(download, env.cleanupFailAt);
  }

  /**
   * When the loops and the cleanup all return, the download and the opening
   * are followed by every thumbnail block in table order, then every
   * rendition block, then the removal of the download and the closing of
   * the clip.
   */
  lemma OpenedSucceeded(bucket: string, key: string, download: string, ts: seq<Output>, rs: seq<Output>, env: Env)
    requires |env.thumbnailSteps| == |ts| && |env.renditionSteps| == |rs|
    requires Work(bucket, download, ts, rs, env).ok
    ensures |[Done(Download(bucket, key, download)), Done(OpenClip(download))] + Work(bucket, download, ts, rs, env).log|
         == 2 + 3 * |ts| + 4 * |rs| + 2
    ensures forall j :: 0 <= j < |ts| ==>
      BlockAt([Done(Download(bucket, key, download)), Done(OpenClip(download))] + Work(bucket, download, ts, rs, env).log,
              2 + 3 * j, OutputOps(bucket, Thumbnail, ts[j]))
    ensures forall j :: 0 <= j < |rs| ==>
      BlockAt([Done(Download(bucket, key, download)), Done(OpenClip(download))] + Work(bucket, download, ts, rs, env).log,
              2 + 3 * |ts| + 4 * j, OutputOps(bucket, Rendition, rs[j]))
    ensures Work(bucket, download, ts, rs, env).log[|Work(bucket, download, ts, rs, env).log| - 2..]
         == [Done(Remove(download)), Done(CloseClip)]
  {
    var head := [Done(Download(bucket, key, download)), Done(OpenClip(download))];
    var thumbs := Loop(bucket, Thumbnail, ts, env.thumbnailSteps).log;
    var renditions := Loop(bucket, Rendition, rs, env.renditionSteps).log;
    var cleanup := [Done(Remove(download)), Done(CloseClip)];
    WorkReturned(bucket, download, ts, rs, env);
    LoopBlocks(bucket, Thumbnail, ts, env.thumbnailSteps, head, renditions + cleanup);
    LoopBlocks(bucket, Rendition, rs, env.renditionSteps, head + thumbs, cleanup);
    ConcatAssoc(head, thumbs, renditions + cleanup);
    ConcatAssoc(thumbs, renditions, cleanup);
    SuffixOfConcat(thumbs + renditions, cleanup);
  }

  /** After the download and the opening, the rest of the invocation follows those two calls. */
  lemma ExpectedOpened(bucket: string, key: string, env: Env)
    requires |env.thumbnailSteps| == |ThumbnailSizes| && |env.renditionSteps| == |Resolutions|
    requires env.download && env.clip.Returned?
    ensures Expected(bucket, key, env) == Answer(Opened(bucket, NamesOf(key), env.clip.value, env))
  {
  }

  /** The rest of the invocation: the download and the opening, then the loops and the cleanup. */
  lemma OpenedShape(bucket: string, n: Names, d: Dimensions, env: Env)
    requires |env.thumbnailSteps| == |ThumbnailSizes| && |env.renditionSteps| == |Resolutions|
    ensures Opened(bucket, n, d, env).ok
         == Work(bucket, n.download, Outputs(n, IsVertical(d), Thumbnail, ThumbnailSizes), Outputs(n, IsVertical(d), Rendition, Resolutions), env).ok
    ensures Opened(bucket, n, d, env).log
         == [Done(Download(bucket, n.key, n.download)), Done(OpenClip(n.download))]
            + Work(bucket, n.download, Outputs(n, IsVertical(d), Thumbnail, ThumbnailSizes), Outputs(n, IsVertical(d), Rendition, Resolutions), env).log
  {
  }

  /**
   * The first call downloads the event's key as given, to its last
   * component under `/tmp`: no key is filtered out and none is decoded.
   */
  lemma FirstCallDownloads(bucket: string, key: string, env: Env)
    requires |env.thumbnailSteps| == |ThumbnailSizes| && |env.renditionSteps| == |Resolutions|
    ensures |Expected(bucket, key, env).log| >= 1
    ensures Expected(bucket, key, env).log[0].op == Download(bucket, key, "/tmp/" + Basename(key))
  {
    if env.download && env.clip.Returned? {
      ExpectedOpened(bucket, key, env);
      OpenedShape(bucket, NamesOf(key), env.clip.value, env);
    }
  }

  /** The download and the opening followed by the loops and the cleanup stop at their first error. */
  lemma OpenedStops(bucket: string, key: string, download: string, ts: seq<Output>, rs: seq<Output>, env: Env)
    requires |env.thumbnailSteps| == |ts| && |env.renditionSteps| == |rs|
    ensures StopsAtFirstError(Run(Work(bucket, download, ts, rs, env).ok,
      [Done(Download(bucket, key, download)), Done(OpenClip(download))] + Work(bucket, download, ts, rs, env).log))
  {
    WorkStops(bucket, download, ts, rs, env);
    ThenStopsAtFirstError(Run(true, [Done(Download(bucket, key, download)), Done(OpenClip(download))]), Work(bucket, download, ts, rs, env));
  }

  /**
   * An invocation stops at its first error, and it answers status 200 with
   * the fixed body exactly when no call raised; otherwise it raises.
   */
  lemma HandlerStops(bucket: string, key: string, env: Env)
    requires |env.thumbnailSteps| == |ThumbnailSizes| && |env.renditionSteps| == |Resolutions|
    ensures StopsAtFirstError(Run(Expected(bucket, key, env).outcome.Responded?, Expected(bucket, key, env).log))
    ensures Expected(bucket, key, env).outcome.Responded? ==> Expected(bucket, key, env).outcome == Responded(200, SuccessBody)
  {
    if env.download && env.clip.Returned? {
      var n := NamesOf(key);
      var d := env.clip.value;
      var ts := Outputs(n, IsVertical(d), Thumbnail, ThumbnailSizes);
      var rs := Outputs(n, IsVertical(d), Rendition, Resolutions);
      ExpectedOpened(bucket, key, env);
      OpenedShape(bucket, n, d, env);
      OpenedStops(bucket, key, n.download, ts, rs, env);
    }
  }

  /**
   * With every call returning, the handler issues 39 calls: the download, the
   * opening, the three calls of each thumbnail in table order, the four calls
   * of each rendition in table order, the removal of the download and the
   * closing of the clip; it answers status 200.
   */
  lemma HandlerSucceeded(bucket: string, key: string, env: Env)
    requires |env.thumbnailSteps| == |ThumbnailSizes| && |env.renditionSteps| == |Resolutions|
    requires env.download && env.clip.Returned?
    requires Expected(bucket, key, env).outcome.Responded?
    ensures Expected(bucket, key, env).outcome == Responded(200, SuccessBody)
    ensures |Expected(bucket, key, env).log| == 39
    ensures Expected(bucket, key, env).log[..2] == [Done(Download(bucket, key, "/tmp/" + Basename(key))), Done(OpenClip("/tmp/" + Basename(key)))]
    ensures forall j :: 0 <= j < 5 ==>
      BlockAt(Expected(bucket, key, env).log, 2 + 3 * j,
              OutputOps(bucket, Thumbnail, OutputOf(NamesOf(key), IsVertical(env.clip.value), Thumbnail, ThumbnailSizes[j])))
    ensures forall j :: 0 <= j < 5 ==>
      BlockAt(Expected(bucket, key, env).log, 17 + 4 * j,
              OutputOps(bucket, Rendition, OutputOf(NamesOf(key), IsVertical(env.clip.value), Rendition, Resolutions[j])))
    ensures Expected(bucket, key, env).log[37..] == [Done(Remove("/tmp/" + Basename(key))), Done(CloseClip)]
  {
    var n := NamesOf(key);
    var d := env.clip.value;
    var ts := Outputs(n, IsVertical(d), Thumbnail, ThumbnailSizes);
    var rs := Outputs(n, IsVertical(d), Rendition, Resolutions);
    ExpectedOpened(bucket, key, env);
    OpenedShape(bucket, n, d, env);
    OpenedSucceeded(bucket, key, n.download, ts, rs, env);
    forall j | 0 <= j < 5 ensures ts[j] == OutputOf(n, IsVertical(d), Thumbnail, ThumbnailSizes[j]) {
      OutputsAt(n, IsVertical(d), Thumbnail, ThumbnailSizes, j);
    }
    forall j | 0 <= j < 5 ensures rs[j] == OutputOf(n, IsVertical(d), Rendition, Resolutions[j]) {
      OutputsAt(n, IsVertical(d), Rendition, Resolutions, j);
    }
  }

  /** No call of the invocation raises. */
  predicate NothingRaises(env: Env) {
    && env.download && env.clip.Returned?
    && (forall i :: 0 <= i < |env.thumbnailSteps| ==> env.thumbnailSteps[i] >= Width(Thumbnail))
    && (forall i :: 0 <= i < |env.renditionSteps| ==> env.renditionSteps[i] >= Width(Rendition))
    && env.cleanupFailAt >= 2
  }

  /** A loop in which no call raises ends normally. */
  lemma {:induction false} LoopReturns(bucket: string, kind: Kind, os: seq<Output>, steps: seq<nat>)
    requires |steps| == |os|
    requires forall i :: 0 <= i < |steps| ==> steps[i] >= Width(kind)
    ensures Loop(bucket, kind, os, steps).ok
    decreases |os|
  {
    if os != [] {
      AttemptShape(OutputOps(bucket, kind, os[0]), steps[0]);
      assert forall i :: 0 <= i < |steps[1..]| ==> steps[1..][i] == steps[i + 1];
      LoopReturns(bucket, kind, os[1..], steps[1..]);
    }
  }

  /** When no call raises, the loops and the cleanup end normally. */
  lemma WorkReturns(bucket: string, download: string, ts: seq<Output>, rs: seq<Output>, env: Env)
    requires |env.thumbnailSteps| == |ts| && |env.renditionSteps| == |rs|
    requires NothingRaises(env)
    ensures Work(bucket, download, ts, rs, env).ok
  {
    LoopReturns(bucket, Thumbnail, ts, env.thumbnailSteps);
    LoopReturns(bucket, Rendition, rs, env.renditionSteps);
    AttemptShape([Remove(download), CloseClip], env.cleanupFailAt);
  }

  /**
   * Every key is processed as given: when no call raises, whatever the key,
   * the handler downloads it, issues all 39 calls and answers status 200.
   */
  lemma EveryKeyProcessed(bucket: string, key: string, env: Env)
    requires |env.thumbnailSteps| == |ThumbnailSizes| && |env.renditionSteps| == |Resolutions|
    requires NothingRaises(env)
    ensures Expected(bucket, key, env).outcome == Responded(200, SuccessBody)
    ensures |Expected(bucket, key, env).log| == 39
    ensures Expected(bucket, key, env).log[0] == Done(Download(bucket, key, "/tmp/" + Basename(key)))
  {
    var n := NamesOf(key);
    var d := env.clip.value;
    WorkReturns(bucket, n.download, Outputs(n, IsVertical(d), Thumbnail, ThumbnailSizes), Outputs(n, IsVertical(d), Rendition, Resolutions), env);
    ExpectedOpened(bucket, key, env);
    OpenedShape(bucket, n, d, env);
    HandlerSucceeded(bucket, key, env);
  }

  // --------------------------------------------------------------- methods

  /** One iteration of the thumbnail loop. */
  method SaveThumbnail(bucket: string, o: Output, failAt: nat) returns (ok: bool, entries: seq<Event<Op>>)
    ensures Run(ok, entries) == Attempt(OutputOps(bucket, Thumbnail, o), failAt)
  {
    AttemptShape(OutputOps(bucket, Thumbnail, o), failAt);
    var save := SaveFrame(o.path, o.width, o.height);
    if failAt == 0 {
      return false, [Failed(save)];
    }
    var upload := Upload(o.path, bucket, o.target, JpegType);
    if failAt == 1 {
      return false, [Done(save), Failed(upload)];
    }
    var remove := Remove(o.path);
    if failAt == 2 {
      return false, [Done(save), Done(upload), Failed(remove)];
    }
    return true, [Done(save), Done(upload), Done(remove)];
  }

  /** One iteration of the rendition loop. */
  method WriteRendition(bucket: string, o: Output, failAt: nat) returns (ok: bool, entries: seq<Event<Op>>)
    ensures Run(ok, entries) == Attempt(OutputOps(bucket, Rendition, o), failAt)
  {
    AttemptShape(OutputOps(bucket, Rendition, o), failAt);
    var resize := Resize(o.width, o.height);
    if failAt == 0 {
      return false, [Failed(resize)];
    }
    var write := WriteVideo(o.path);
    if failAt == 1 {
      return false, [Done(resize), Failed(write)];
    }
    var upload := Upload(o.path, bucket, o.target, Mp4Type);
    if failAt == 2 {
      return false, [Done(resize), Done(write), Failed(upload)];
    }
    var remove := Remove(o.path);
    if failAt == 3 {
      return false, [Done(resize), Done(write), Done(upload), Failed(remove)];
    }
    return true, [Done(resize), Done(write), Done(upload), Done(remove)];
  }

  /** The thumbnail loop over the rows `ss`: each iteration derives its output from its row; a raised error leaves the loop. */
  method GenerateThumbnails(bucket: string, n: Names, vertical: bool, ss: seq<Size>, steps: seq<nat>)
    returns (ok: bool, log: seq<Event<Op>>)
    requires |steps| == |ss|
    ensures Run(ok, log) == Loop(bucket, Thumbnail, Outputs(n, vertical, Thumbnail, ss), steps)
  {
    ghost var os := Outputs(n, vertical, Thumbnail, ss);
    log := [];
    var i := 0;
    assert os[0..] == os && steps[0..] == steps;
    while i < |ss|
      invariant 0 <= i <= |ss|
      invariant Then(Run(true, log), Loop(bucket, Thumbnail, os[i..], steps[i..])) == Loop(bucket, Thumbnail, os, steps)
    {
      var o := OutputOf(n, vertical, Thumbnail, ss[i]);
      OutputsAt(n, vertical, Thumbnail, ss, i);
      var stepOk, entries := SaveThumbnail(bucket, o, steps[i]);
      LoopAdvance(bucket, Thumbnail, os, steps, i, log, stepOk, entries);
      log := log + entries;
      if !stepOk {
        return false, log;
      }
      i := i + 1;
    }
    return true, log;
  }

  /** The rendition loop over the rows `ss`: each iteration derives its output from its row; a raised error leaves the loop. */
  method GenerateRenditions(bucket: string, n: Names, vertical: bool, ss: seq<Size>, steps: seq<nat>)
    returns (ok: bool, log: seq<Event<Op>>)
    requires |steps| == |ss|
    ensures Run(ok, log) == Loop(bucket, Rendition, Outputs(n, vertical, Rendition, ss), steps)
  {
    ghost var os := Outputs(n, vertical, Rendition, ss);
    log := [];
    var i := 0;
    assert os[0..] == os && steps[0..] == steps;
    while i < |ss|
      invariant 0 <= i <= |ss|
      invariant Then(Run(true, log), Loop(bucket, Rendition, os[i..], steps[i..])) == Loop(bucket, Rendition, os, steps)
    {
      var o := OutputOf(n, vertical, Rendition, ss[i]);
      OutputsAt(n, vertical, Rendition, ss, i);
      var stepOk, entries := WriteRendition(bucket, o, steps[i]);
      LoopAdvance(bucket, Rendition, os, steps, i, log, stepOk, entries);
      log := log + entries;
      if !stepOk {
        return false, log;
      }
      i := i + 1;
    }
    return true, log;
  }

  /** The cleanup: remove the download, then close the clip. */
  method Finalize(download: string, failAt: nat) returns (ok: bool, entries: seq<Event<Op>>)
    ensures Run(ok, entries) == Cleanup(download, failAt)
  {
    AttemptShape([Remove(download), CloseClip], failAt);
    var remove := Remove(download);
    if failAt == 0 {
      return false, [Failed(remove)];
    }
    if failAt == 1 {
      return false, [Done(remove), Failed(CloseClip)];
    }
    return true, [Done(remove), Done(CloseClip)];
  }

  /** After the clip is open: the thumbnail loop over `tsizes`, the rendition loop over `rsizes`, then the cleanup. */
  method Process(bucket: string, n: Names, vertical: bool, tsizes: seq<Size>, rsizes: seq<Size>, env: Env)
    returns (ok: bool, log: seq<Event<Op>>)
    requires |env.thumbnailSteps| == |tsizes| && |env.renditionSteps| == |rsizes|
    ensures Run(ok, log) == Work(bucket, n.download, Outputs(n, vertical, Thumbnail, tsizes), Outputs(n, vertical, Rendition, rsizes), env)
  {
    var thumbsOk, thumbs := GenerateThumbnails(bucket, n, vertical, tsizes, env.thumbnailSteps);
    if !thumbsOk {
      return false, thumbs;
    }
    var renditionsOk, renditions := GenerateRenditions(bucket, n, vertical, rsizes, env.renditionSteps);
    if !renditionsOk {
      return false, thumbs + renditions;
    }
    var cleanupOk, cleanup := Finalize(n.download, env.cleanupFailAt);
    ok := cleanupOk;
    log := thumbs + renditions + cleanup;
    assert log == thumbs + (renditions + cleanup);
  }

  /** The handler: download, open, then the loops and the cleanup; any error propagates. */
  method Handler(bucket: string, key: string, env: Env) returns (outcome: Outcome, log: seq<Event<Op>>)
    requires |env.thumbnailSteps| == |ThumbnailSizes| && |env.renditionSteps| == |Resolutions|
    ensures Invocation(outcome, log) == Expected(bucket, key, env)
  {
    var downloadPath := "/tmp/" + Basename(key);
    var get := Download(bucket, key, downloadPath);
    if !env.download {
      return Raised, [Failed(get)];
    }
    var open := OpenClip(downloadPath);
    if env.clip.Threw? {
      return Raised, [Done(get), Failed(open)];
    }
    var n := NamesOf(key);
    var vertical := IsVertical(env.clip.value);
    var ok, work := Process(bucket, n, vertical, ThumbnailSizes, Resolutions, env);
    ExpectedOpened(bucket, key, env);
    OpenedShape(bucket, n, env.clip.value, env);
    log := [Done(get), Done(open)] + work;
    outcome := if ok then Responded(200, SuccessBody) else Raised;
  }
}
