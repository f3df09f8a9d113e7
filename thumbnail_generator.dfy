/**
 * The video thumbnail generator: it downloads a video to `/tmp`, probes its
 * width and height, and for each of five sizes extracts one frame scaled to
 * that size (swapped for a vertical video), uploads it as WebP next to the
 * video and deletes the frame file; whatever happens in that part, the
 * downloaded video is deleted at the end.
 *
 * The storage calls, the filesystem, `ffprobe` and `ffmpeg` are inputs
 * (`Env`); the handler returns how its promise settles and the log of the
 * calls it issued.
 */
module ThumbnailGenerator {
  import opened Text
  import opened Trace
  import opened Orientation

  /** A row of the size table: the key suffix and the nominal landscape size. */
  datatype ThumbSize = ThumbSize(suffix: string, width: nat, height: nat)

  const ThumbnailSizes: seq<ThumbSize> := [
    ThumbSize("-xs.webp", 320, 240),
    ThumbSize("-sm.webp", 640, 480),
    ThumbSize("-md.webp", 800, 600),
    ThumbSize("-lg.webp", 1024, 768),
    ThumbSize("-xl.webp", 1280, 960)
  ]

  const WebpType: string := "image/webp"

  /** The width and height `ffprobe` reports for the first video stream. */
  datatype Dimensions = Dimensions(width: int, height: int)

  datatype Op =
    | GetObject(bucket: string, key: string)
    | WriteFile(path: string)
    /** `ffprobe` of the first video stream's width and height. */
    | Probe(path: string)
    /** `ffmpeg` writing one representative frame scaled to `width`x`height`. */
    | ExtractFrame(input: string, width: nat, height: nat, output: string)
    | ReadFile(path: string)
    /** A put whose body is the content of the file at `bodyFrom`. */
    | PutObject(bucket: string, key: string, bodyFrom: string, contentType: string)
    | Unlink(path: string)

  /** Whether each call of one size's iteration returns: frame extraction, file read, put, unlink. */
  datatype SizeEnv = SizeEnv(extract: bool, read: bool, put: bool, unlink: bool)

  /**
   * What the outside world answers: getObject, the write of the video file,
   * the probe, each size's calls, and the final unlink of the video file.
   */
  datatype Env = Env(getObject: bool, writeVideo: bool, probe: Reply<Dimensions>,
                     steps: seq<SizeEnv>, cleanup: bool)

  /** How the handler's promise settles; it has no return value. */
  datatype Outcome = Fulfilled | Rejected

  datatype Invocation = Invocation(outcome: Outcome, log: seq<Event<Op>>)

  // ---------------------------------------------------------------- naming

  /** Where the video is downloaded: its key's last component under `/tmp`. */
  function TempVideoPath(key: string): string {
    "/tmp/" + Basename(key)
  }

  /**
   * What the handler derives from the key before anything else: the key, the
   * download path, the extension and the last component without it.
   */
  datatype Video = Video(key: string, path: string, ext: string, baseName: string)

  function VideoOf(key: string): Video {
    var ext := Extname(key);
    Video(key, TempVideoPath(key), ext, BasenameWithout(key, ext))
  }

  /** The per-video names: the download path is under `/tmp` and ends with the key's last component, which ends with the extension. */
  lemma VideoOfSpec(key: string)
    ensures var v := VideoOf(key);
      && v.path == "/tmp/" + Basename(key)
      && (v.ext != [] ==> v.baseName + v.ext == Basename(key) && v.ext[0] == '.' && '.' !in v.ext[1..])
      && (v.ext == [] ==> v.baseName == Basename(key))
  {
    ExtnameSpec(key);
    BasenameWithoutSpec(key, Extname(key));
  }

  /** The frame file of a size: the video's name without its extension, then the suffix, under `/tmp`. */
  function ThumbnailPath(baseName: string, suffix: string): string {
    "/tmp/" + baseName + suffix
  }

  /** `key.replace('-org' + videoExt, suffix)`: only the first occurrence is replaced. */
  function ThumbnailKey(key: string, videoExt: string, suffix: string): string {
    ReplaceFirst(key, "-org" + videoExt, suffix)
  }

  /** For `base-org.ext` with a dot-free extension, the thumbnail key is `base` + suffix. */
  lemma ThumbnailKeyOfOriginal(base: string, ext: string, suffix: string)
    requires '/' !in ext && '.' !in ext && ext != []
    requires forall j :: 0 <= j < |base| ==> !OccursAt(base + "-org" + "." + ext, "-org" + "." + ext, j)
    ensures Extname(base + "-org" + "." + ext) == "." + ext
    ensures ThumbnailKey(base + "-org" + "." + ext, Extname(base + "-org" + "." + ext), suffix) == base + suffix
  {
    var pat := "-org" + "." + ext;
    var key := base + "-org" + "." + ext;
    ExtensionOfName(base + "-org", ext);
    assert "-org" + Extname(key) == pat;
    assert key == base + pat + [];
    ReplaceFirstAt(base, pat, [], suffix);
    assert base + suffix + [] == base + suffix;
  }

  /** Without that occurrence the key is unchanged. */
  lemma ThumbnailKeyAbsent(key: string, suffix: string)
    requires !Contains(key, "-org" + Extname(key))
    ensures ThumbnailKey(key, Extname(key), suffix) == key
  {
    ReplaceFirstSpec(key, "-org" + Extname(key), suffix);
  }

  /** The example of an MP4 original in a folder. */
  lemma ClipExample()
    ensures ThumbnailKey("videos/clip" + "-org" + "." + "mp4", "." + "mp4", "-xs.webp") == "videos/clip" + "-xs.webp"
  {
    var base := "videos/clip";
    var s := base + "-org" + "." + "mp4";
    forall j | 0 <= j < |base| ensures !OccursAt(s, "-org" + "." + "mp4", j) {
      assert s[j] == base[j];
      if j + 8 <= |s| {
        assert s[j..j + 8][0] == s[j];
      }
    }
    ThumbnailKeyOfOriginal(base, "mp4", "-xs.webp");
  }

  // ----------------------------------------------------------- orientation

  /** `height > width`. */
  predicate IsVertical(d: Dimensions) {
    d.height > d.width
  }

  /**
   * The table: five sizes in the order xs, sm, md, lg, xl, all landscape,
   * growing strictly, each suffix ending in `.webp`.
   */
  lemma SizeTable()
    ensures |ThumbnailSizes| == 5
    ensures [ThumbnailSizes[0].suffix, ThumbnailSizes[1].suffix, ThumbnailSizes[2].suffix,
             ThumbnailSizes[3].suffix, ThumbnailSizes[4].suffix]
         == ["-xs.webp", "-sm.webp", "-md.webp", "-lg.webp", "-xl.webp"]
    ensures forall s :: s in ThumbnailSizes ==> EndsWith(s.suffix, ".webp") && s.width > s.height
    ensures forall i :: 0 <= i < 4 ==>
      ThumbnailSizes[i].width < ThumbnailSizes[i + 1].width && ThumbnailSizes[i].height < ThumbnailSizes[i + 1].height
  {
  }

  /** A vertical video gets portrait thumbnails and any other video landscape ones. */
  lemma ScaleFollowsOrientation(d: Dimensions, s: ThumbSize)
    requires s in ThumbnailSizes
    ensures var wh := Oriented(s.width, s.height, IsVertical(d));
      (wh.0 < wh.1 <==> d.height > d.width) && (wh.0 > wh.1 <==> d.height <= d.width)
  {
    SizeTable();
  }

  /** The example of a 1080x1920 phone video: its smallest thumbnail is 240x320. */
  lemma PhoneVideoExample()
    ensures IsVertical(Dimensions(1080, 1920)) && Oriented(ThumbnailSizes[0].width, ThumbnailSizes[0].height, IsVertical(Dimensions(1080, 1920))) == (240, 320)
  {
  }

  // ---------------------------------------------------------------- frames

  /** What one iteration of the size loop works with: the frame file, the thumbnail key and the scale. */
  datatype Frame = Frame(path: string, target: string, width: nat, height: nat)

  /** The frame of size `s` for the video `v`. */
  function FrameOf(v: Video, vertical: bool, s: ThumbSize): Frame {
    var wh := Oriented(s.width, s.height, vertical);
    Frame(ThumbnailPath(v.baseName, s.suffix), ThumbnailKey(v.key, v.ext, s.suffix), wh.0, wh.1)
  }

  /** The frames of the sizes `ss`, in order. */
  function Frames(v: Video, vertical: bool, ss: seq<ThumbSize>): (fs: seq<Frame>)
    ensures |fs| == |ss|
    decreases |ss|
  {
    if ss == [] then [] else [FrameOf(v, vertical, ss[0])] + Frames(v, vertical, ss[1..])
  }

  /** Frame `j` is the frame of size `j`. */
  lemma {:induction false} FramesAt(v: Video, vertical: bool, ss: seq<ThumbSize>, j: nat)
    requires j < |ss|
    ensures Frames(v, vertical, ss)[j] == FrameOf(v, vertical, ss[j])
    decreases j
  {
    if j > 0 {
      FramesAt(v, vertical, ss[1..], j - 1);
    }
  }

  // ------------------------------------------------------------------ runs

  /** The calls of one iteration, in order: extract the frame, read it, put it as WebP, delete it. */
  function FrameOps(bucket: string, video: string, f: Frame): (ops: seq<Op>)
    ensures |ops| == 4
  {
    [ExtractFrame(video, f.width, f.height, f.path), ReadFile(f.path),
     PutObject(bucket, f.target, f.path, WebpType), Unlink(f.path)]
  }

  /** One iteration of the size loop: its calls in order until one throws. */
  function FrameRun(bucket: string, video: string, f: Frame, e: SizeEnv): Run<Op> {
    var ops := FrameOps(bucket, video, f);
    if !e.extract then Run(false, [Failed(ops[0])])
    else if !e.read then Run(false, [Done(ops[0]), Failed(ops[1])])
    else if !e.put then Run(false, [Done(ops[0]), Done(ops[1]), Failed(ops[2])])
    else Run(e.unlink, [Done(ops[0]), Done(ops[1]), Done(ops[2]), if e.unlink then Done(ops[3]) else Failed(ops[3])])
  }

  /** The size loop over the frames `fs`, a thrown error ending it. */
  function Thumbnails(bucket: string, video: string, fs: seq<Frame>, steps: seq<SizeEnv>): Run<Op>
    requires |steps| == |fs|
    decreases |fs|
  {
    if fs == [] then Run(true, [])
    else Then(FrameRun(bucket, video, fs[0], steps[0]), Thumbnails(bucket, video, fs[1..], steps[1..]))
  }

  /** The `try` block: probe the video, then the size loop over `ss` (the handler uses `ThumbnailSizes`). */
  function TryBlock(bucket: string, v: Video, ss: seq<ThumbSize>, env: Env): Run<Op>
    requires |env.steps| == |ss|
  {
    match env.probe
    case Threw => Run(false, [Failed(Probe(v.path))])
    case Returned(d) => Then(Run(true, [Done(Probe(v.path))]), Thumbnails(bucket, v.path, Frames(v, IsVertical(d), ss), env.steps))
  }

  /**
   * The whole invocation around a `try` block: download and write the video,
   * run the block, whose error is caught, then delete the video file.
   */
  function Finish(bucket: string, key: string, video: string, body: Run<Op>, env: Env): Invocation {
    var get := GetObject(bucket, key);
    var write := WriteFile(video);
    if !env.getObject then Invocation(Rejected, [Failed(get)])
    else if !env.writeVideo then Invocation(Rejected, [Done(get), Failed(write)])
    else Invocation(if env.cleanup then Fulfilled else Rejected,
                    [Done(get), Done(write)] + body.log + [if env.cleanup then Done(Unlink(video)) else Failed(Unlink(video))])
  }

  /** What one invocation answers and which calls it issues. */
  function Expected(bucket: string, key: string, env: Env): Invocation
    requires |env.steps| == |ThumbnailSizes|
  {
    var v := VideoOf(key);
    Finish(bucket, key, v.path, TryBlock(bucket, v, ThumbnailSizes, env), env)
  }

  // ------------------------------------------------------ trace properties

  /**
   * An iteration issues a prefix of its four calls and stops at its first
   * error; it ends normally exactly when all four return; once its put
   * returned, its next call deletes the frame file.
   */
  lemma FrameRunShape(bucket: string, video: string, f: Frame, e: SizeEnv)
    ensures var run := FrameRun(bucket, video, f, e);
      && 1 <= |run.log| <= 4
      && (forall i :: 0 <= i < |run.log| ==> run.log[i].op == FrameOps(bucket, video, f)[i])
      && StopsAtFirstError(run)
      && (run.ok <==> e.extract && e.read && e.put && e.unlink)
      && (run.ok ==> BlockAt(run.log, 0, FrameOps(bucket, video, f)))
      && (|run.log| >= 3 && run.log[2].Done? ==> |run.log| == 4 && run.log[3].op == Unlink(f.path))
  {
  }

  /** The loop from frame `i` on: iteration `i`, then the loop from `i + 1` on. */
  lemma ThumbnailsStep(bucket: string, video: string, fs: seq<Frame>, steps: seq<SizeEnv>, i: nat)
    requires i < |fs| && |steps| == |fs|
    ensures Thumbnails(bucket, video, fs[i..], steps[i..])
         == Then(FrameRun(bucket, video, fs[i], steps[i]), Thumbnails(bucket, video, fs[i + 1..], steps[i + 1..]))
  {
    assert fs[i..][0] == fs[i] && steps[i..][0] == steps[i];
    assert fs[i..][1..] == fs[i + 1..] && steps[i..][1..] == steps[i + 1..];
  }

  /** The loop stops at its first error. */
  lemma {:induction false} ThumbnailsStop(bucket: string, video: string, fs: seq<Frame>, steps: seq<SizeEnv>)
    requires |steps| == |fs|
    ensures StopsAtFirstError(Thumbnails(bucket, video, fs, steps))
    decreases |fs|
  {
    if fs != [] {
      ThumbnailsStop(bucket, video, fs[1..], steps[1..]);
      FrameRunShape(bucket, video, fs[0], steps[0]);
      ThenStopsAtFirstError(FrameRun(bucket, video, fs[0], steps[0]), Thumbnails(bucket, video, fs[1..], steps[1..]));
    }
  }

  /**
   * A failed loop consists of the iterations before some `k`, all of which
   * succeeded, then the calls of iteration `k` up to its error: nothing of a
   * later size is issued.
   */
  lemma {:induction false} ThumbnailsFailed(bucket: string, video: string, fs: seq<Frame>, steps: seq<SizeEnv>)
    requires |steps| == |fs|
    requires !Thumbnails(bucket, video, fs, steps).ok
    ensures exists k :: 0 <= k < |fs| && FailedAt(bucket, video, fs, steps, k)
    decreases |fs|
  {
    var first := FrameRun(bucket, video, fs[0], steps[0]);
    var rest := Thumbnails(bucket, video, fs[1..], steps[1..]);
    if !first.ok {
      FailedAtFirst(bucket, video, fs, steps);
    } else {
      ThumbnailsFailed(bucket, video, fs[1..], steps[1..]);
      var k :| 0 <= k < |fs| - 1 && FailedAt(bucket, video, fs[1..], steps[1..], k);
      FailedAtNext(bucket, video, fs, steps, k);
    }
  }

  /** The loop's log is that of the successful iterations before `k`, then iteration `k`, which failed. */
  predicate FailedAt(bucket: string, video: string, fs: seq<Frame>, steps: seq<SizeEnv>, k: nat)
    requires |steps| == |fs| && k < |fs|
  {
    && Thumbnails(bucket, video, fs[..k], steps[..k]).ok
    && !FrameRun(bucket, video, fs[k], steps[k]).ok
    && Thumbnails(bucket, video, fs, steps).log
       == Thumbnails(bucket, video, fs[..k], steps[..k]).log + FrameRun(bucket, video, fs[k], steps[k]).log
  }

  lemma FailedAtFirst(bucket: string, video: string, fs: seq<Frame>, steps: seq<SizeEnv>)
    requires |steps| == |fs| && fs != []
    requires !FrameRun(bucket, video, fs[0], steps[0]).ok
    ensures FailedAt(bucket, video, fs, steps, 0)
  {
    assert fs[..0] == [] && steps[..0] == [];
    assert [] + FrameRun(bucket, video, fs[0], steps[0]).log == FrameRun(bucket, video, fs[0], steps[0]).log;
  }

  lemma FailedAtNext(bucket: string, video: string, fs: seq<Frame>, steps: seq<SizeEnv>, k: nat)
    requires |steps| == |fs| && k + 1 < |fs|
    requires FrameRun(bucket, video, fs[0], steps[0]).ok
    requires FailedAt(bucket, video, fs[1..], steps[1..], k)
    ensures FailedAt(bucket, video, fs, steps, k + 1)
  {
    var first := FrameRun(bucket, video, fs[0], steps[0]);
    assert fs[..k + 1][0] == fs[0] && steps[..k + 1][0] == steps[0];
    assert fs[..k + 1][1..] == fs[1..][..k] && steps[..k + 1][1..] == steps[1..][..k];
    assert fs[1..][k] == fs[k + 1] && steps[1..][k] == steps[k + 1];
    var front := Thumbnails(bucket, video, fs[1..][..k], steps[1..][..k]);
    var last := FrameRun(bucket, video, fs[k + 1], steps[k + 1]);
    assert first.log + (front.log + last.log) == (first.log + front.log) + last.log;
  }

  /**
   * The log of a loop failed at iteration `k`: the four calls of every earlier
   * frame, in order, then a prefix of iteration `k`'s calls ending in the error.
   */
  lemma FailedShape(bucket: string, video: string, fs: seq<Frame>, steps: seq<SizeEnv>, k: nat)
    requires |steps| == |fs| && k < |fs|
    requires FailedAt(bucket, video, fs, steps, k)
    ensures var log := Thumbnails(bucket, video, fs, steps).log;
      && 4 * k < |log| <= 4 * k + 4
      && (forall j :: 0 <= j < k ==> BlockAt(log, 4 * j, FrameOps(bucket, video, fs[j])))
      && (forall m :: 4 * k <= m < |log| ==> log[m].op == FrameOps(bucket, video, fs[k])[m - 4 * k])
      && log[|log| - 1].Failed?
  {
    var front := Thumbnails(bucket, video, fs[..k], steps[..k]);
    var last := FrameRun(bucket, video, fs[k], steps[k]);
    ThumbnailsSucceeded(bucket, video, fs[..k], steps[..k]);
    FrameRunShape(bucket, video, fs[k], steps[k]);
    var log := front.log + last.log;
    forall j | 0 <= j < k ensures BlockAt(log, 4 * j, FrameOps(bucket, video, fs[j])) {
      assert fs[..k][j] == fs[j];
      BlockExtend(front.log, last.log, 4 * j, FrameOps(bucket, video, fs[j]));
    }
    forall m | 4 * k <= m < |log| ensures log[m].op == FrameOps(bucket, video, fs[k])[m - 4 * k] {
      assert log[m] == last.log[m - 4 * k];
    }
  }

  /** A block of four calls for the first frame, followed by the blocks of the others. */
  lemma ConsBlocks(bucket: string, video: string, fs: seq<Frame>, head: seq<Event<Op>>, tail: seq<Event<Op>>)
    requires fs != [] && |head| == 4 && BlockAt(head, 0, FrameOps(bucket, video, fs[0]))
    requires |tail| == 4 * (|fs| - 1)
    requires forall j :: 0 <= j < |fs| - 1 ==> BlockAt(tail, 4 * j, FrameOps(bucket, video, fs[1..][j]))
    ensures |head + tail| == 4 * |fs|
    ensures forall j :: 0 <= j < |fs| ==> BlockAt(head + tail, 4 * j, FrameOps(bucket, video, fs[j]))
  {
    forall j | 0 <= j < |fs| ensures BlockAt(head + tail, 4 * j, FrameOps(bucket, video, fs[j])) {
      if j == 0 {
        BlockExtend(head, tail, 0, FrameOps(bucket, video, fs[0]));
      } else {
        assert fs[1..][j - 1] == fs[j];
        BlockShift(head, tail, 4 * (j - 1), FrameOps(bucket, video, fs[j]));
      }
    }
  }

  /** When the loop succeeds, iteration `j` accounts for calls `4j` to `4j + 3`, in order. */
  lemma {:induction false} ThumbnailsSucceeded(bucket: string, video: string, fs: seq<Frame>, steps: seq<SizeEnv>)
    requires |steps| == |fs|
    requires Thumbnails(bucket, video, fs, steps).ok
    ensures var log := Thumbnails(bucket, video, fs, steps).log;
      && |log| == 4 * |fs|
      && forall j :: 0 <= j < |fs| ==> BlockAt(log, 4 * j, FrameOps(bucket, video, fs[j]))
    decreases |fs|
  {
    if fs != [] {
      var first := FrameRun(bucket, video, fs[0], steps[0]);
      var rest := Thumbnails(bucket, video, fs[1..], steps[1..]);
      assert first.ok && rest.ok;
      FrameRunShape(bucket, video, fs[0], steps[0]);
      ThumbnailsSucceeded(bucket, video, fs[1..], steps[1..]);
      ConsBlocks(bucket, video, fs, first.log, rest.log);
    }
  }

  /** The probe followed by the loop stops at its first error. */
  lemma ProbedStops(bucket: string, video: string, fs: seq<Frame>, steps: seq<SizeEnv>)
    requires |steps| == |fs|
    ensures StopsAtFirstError(Then(Run(true, [Done(Probe(video))]), Thumbnails(bucket, video, fs, steps)))
  {
    ThumbnailsStop(bucket, video, fs, steps);
    ThenStopsAtFirstError(Run(true, [Done(Probe(video))]), Thumbnails(bucket, video, fs, steps));
  }

  /** The `try` block stops at its first error. */
  lemma TryBlockStops(bucket: string, v: Video, ss: seq<ThumbSize>, env: Env)
    requires |env.steps| == |ss|
    ensures StopsAtFirstError(TryBlock(bucket, v, ss, env))
  {
    if env.probe.Returned? {
      ProbedStops(bucket, v.path, Frames(v, IsVertical(env.probe.value), ss), env.steps);
    }
  }

  /** A failed download issues no put and no unlink, and the promise is rejected. */
  lemma DownloadFails(bucket: string, key: string, video: string, body: Run<Op>, env: Env)
    requires !env.getObject || !env.writeVideo
    ensures var inv := Finish(bucket, key, video, body, env);
      && inv.outcome == Rejected
      && 1 <= |inv.log| <= 2 && inv.log[|inv.log| - 1].Failed?
      && forall i :: 0 <= i < |inv.log| ==> !inv.log[i].op.PutObject? && !inv.log[i].op.Unlink?
  {
  }

  /**
   * Once the video is written, its file is deleted by the last call whatever
   * the `try` block did: an error there is caught, and the promise is rejected
   * only when that deletion throws.
   */
  lemma CleanupAlways(bucket: string, key: string, video: string, body: Run<Op>, env: Env)
    requires env.getObject && env.writeVideo
    ensures var inv := Finish(bucket, key, video, body, env);
      && |inv.log| == 2 + |body.log| + 1
      && inv.log[..2] == [Done(GetObject(bucket, key)), Done(WriteFile(video))]
      && inv.log[2..|inv.log| - 1] == body.log
      && inv.log[|inv.log| - 1].op == Unlink(video)
      && (inv.outcome == Fulfilled <==> env.cleanup)
  {
    var inv := Finish(bucket, key, video, body, env);
    var head := [Done(GetObject(bucket, key)), Done(WriteFile(video))];
    var last := if env.cleanup then Done(Unlink(video)) else Failed(Unlink(video));
    assert inv.log == head + body.log + [last];
    assert inv.log[2..|inv.log| - 1] == body.log;
  }

  /** The handler's invocation, with a download failure or the cleanup guarantee. */
  lemma HandlerCleanup(bucket: string, key: string, env: Env)
    requires |env.steps| == |ThumbnailSizes|
    ensures var inv := Expected(bucket, key, env);
      && (!env.getObject || !env.writeVideo ==>
            inv.outcome == Rejected && forall i :: 0 <= i < |inv.log| ==> !inv.log[i].op.PutObject? && !inv.log[i].op.Unlink?)
      && (env.getObject && env.writeVideo ==>
            inv.log[|inv.log| - 1].op == Unlink(TempVideoPath(key)) && (inv.outcome == Fulfilled <==> env.cleanup))
  {
    var v := VideoOf(key);
    var body := TryBlock(bucket, v, ThumbnailSizes, env);
    if !env.getObject || !env.writeVideo {
      DownloadFails(bucket, key, v.path, body, env);
    } else {
      CleanupAlways(bucket, key, v.path, body, env);
    }
  }

  /**
   * Around a successful probe and loop, the invocation issues the download,
   * the write and the probe, then the loop's blocks, then the deletion.
   */
  lemma ProbedSucceeded(bucket: string, key: string, video: string, fs: seq<Frame>, env: Env)
    requires |env.steps| == |fs|
    requires env.getObject && env.writeVideo && env.cleanup
    requires Thumbnails(bucket, video, fs, env.steps).ok
    ensures var inv := Finish(bucket, key, video, Then(Run(true, [Done(Probe(video))]), Thumbnails(bucket, video, fs, env.steps)), env);
      && inv.outcome == Fulfilled
      && |inv.log| == 3 + 4 * |fs| + 1
      && inv.log[..3] == [Done(GetObject(bucket, key)), Done(WriteFile(video)), Done(Probe(video))]
      && (forall j :: 0 <= j < |fs| ==> BlockAt(inv.log, 3 + 4 * j, FrameOps(bucket, video, fs[j])))
      && inv.log[|inv.log| - 1] == Done(Unlink(video))
  {
    var loop := Thumbnails(bucket, video, fs, env.steps);
    ThumbnailsSucceeded(bucket, video, fs, env.steps);
    var head := [Done(GetObject(bucket, key)), Done(WriteFile(video)), Done(Probe(video))];
    var last := [Done(Unlink(video))];
    var inv := Finish(bucket, key, video, Then(Run(true, [Done(Probe(video))]), loop), env);
    assert inv.log == head + loop.log + last;
    forall j | 0 <= j < |fs| ensures BlockAt(inv.log, 3 + 4 * j, FrameOps(bucket, video, fs[j])) {
      BlockInMiddle(head, loop.log, last, 4 * j, FrameOps(bucket, video, fs[j]));
    }
  }

  /** After a successful download and probe, the invocation is the probe followed by the size loop, in the `try` block. */
  lemma ExpectedProbed(bucket: string, key: string, env: Env)
    requires |env.steps| == |ThumbnailSizes| && env.probe.Returned?
    ensures var v := VideoOf(key);
      Expected(bucket, key, env) == Finish(bucket, key, v.path,
        Then(Run(true, [Done(Probe(v.path))]), Thumbnails(bucket, v.path, Frames(v, IsVertical(env.probe.value), ThumbnailSizes), env.steps)), env)
  {
  }

  /**
   * With every call returning, the handler issues 24 calls: download, write,
   * probe, the four calls of each size in table order (each put an
   * `image/webp` object whose frame file is deleted next), then the deletion
   * of the video file.
   */
  lemma HandlerSucceeded(bucket: string, key: string, env: Env)
    requires |env.steps| == |ThumbnailSizes|
    requires env.getObject && env.writeVideo && env.probe.Returned? && env.cleanup
    requires Thumbnails(bucket, TempVideoPath(key), Frames(VideoOf(key), IsVertical(env.probe.value), ThumbnailSizes), env.steps).ok
    ensures var inv := Expected(bucket, key, env);
      var video := TempVideoPath(key);
      && inv.outcome == Fulfilled
      && |inv.log| == 3 + 4 * |ThumbnailSizes| + 1
      && inv.log[..3] == [Done(GetObject(bucket, key)), Done(WriteFile(video)), Done(Probe(video))]
      && (forall j :: 0 <= j < |ThumbnailSizes| ==>
            BlockAt(inv.log, 3 + 4 * j, FrameOps(bucket, video, FrameOf(VideoOf(key), IsVertical(env.probe.value), ThumbnailSizes[j]))))
      && inv.log[|inv.log| - 1] == Done(Unlink(video))
  {
    var v := VideoOf(key);
    var vertical := IsVertical(env.probe.value);
    var fs := Frames(v, vertical, ThumbnailSizes);
    ExpectedProbed(bucket, key, env);
    ProbedSucceeded(bucket, key, v.path, fs, env);
    forall j | 0 <= j < |ThumbnailSizes| ensures fs[j] == FrameOf(v, vertical, ThumbnailSizes[j]) {
      FramesAt(v, vertical, ThumbnailSizes, j);
    }
  }

  // --------------------------------------------------------------- methods

  /** One iteration of the handler's loop, on the frame of its size. */
  method GenerateThumbnail(bucket: string, video: string, f: Frame, e: SizeEnv)
    returns (ok: bool, entries: seq<Event<Op>>)
    ensures Run(ok, entries) == FrameRun(bucket, video, f, e)
  {
    var extract := ExtractFrame(video, f.width, f.height, f.path);
    if !e.extract {
      return false, [Failed(extract)];
    }
    var read := ReadFile(f.path);
    if !e.read {
      return false, [Done(extract), Failed(read)];
    }
    var put := PutObject(bucket, f.target, f.path, WebpType);
    if !e.put {
      return false, [Done(extract), Done(read), Failed(put)];
    }
    var unlink := Unlink(f.path);
    ok := e.unlink;
    entries := [Done(extract), Done(read), Done(put), if ok then Done(unlink) else Failed(unlink)];
  }

  /** The size loop: each iteration derives its frame from its size; a thrown error leaves the loop. */
  method GenerateAll(bucket: string, v: Video, vertical: bool, ss: seq<ThumbSize>, steps: seq<SizeEnv>)
    returns (ok: bool, log: seq<Event<Op>>)
    requires |steps| == |ss|
    ensures Run(ok, log) == Thumbnails(bucket, v.path, Frames(v, vertical, ss), steps)
  {
    var video := v.path;
    ghost var fs := Frames(v, vertical, ss);
    log := [];
    var i := 0;
    assert fs[0..] == fs && steps[0..] == steps;
    while i < |ss|
      invariant 0 <= i <= |ss|
      invariant Then(Run(true, log), Thumbnails(bucket, video, fs[i..], steps[i..])) == Thumbnails(bucket, video, fs, steps)
    {
      var frame := FrameOf(v, vertical, ss[i]);
      FramesAt(v, vertical, ss, i);
      var stepOk, entries := GenerateThumbnail(bucket, video, frame, steps[i]);
      ThumbnailsStep(bucket, video, fs, steps, i);
      ThenAssoc(Run(true, log), Run(stepOk, entries), Thumbnails(bucket, video, fs[i + 1..], steps[i + 1..]));
      log := log + entries;
      if !stepOk {
        return false, log;
      }
      i := i + 1;
    }
    return true, log;
  }

  /** The handler: download, then the `try` block whose error is caught, then the `finally` deletion. */
  method Handler(bucket: string, key: string, env: Env) returns (outcome: Outcome, log: seq<Event<Op>>)
    requires |env.steps| == |ThumbnailSizes|
    ensures Invocation(outcome, log) == Expected(bucket, key, env)
  {
    var tempVideoPath := TempVideoPath(key);
    var videoExt := Extname(key);
    var baseName := BasenameWithout(key, videoExt);
    var get := GetObject(bucket, key);
    if !env.getObject {
      return Rejected, [Failed(get)];
    }
    var write := WriteFile(tempVideoPath);
    if !env.writeVideo {
      return Rejected, [Done(get), Failed(write)];
    }
    log := [Done(get), Done(write)];
    var probe := Probe(tempVideoPath);
    if env.probe.Threw? {
      log := log + [Failed(probe)];
    } else {
      var vertical := IsVertical(env.probe.value);
      var loopOk, entries := GenerateAll(bucket, Video(key, tempVideoPath, videoExt, baseName), vertical, ThumbnailSizes, env.steps);
      log := log + ([Done(probe)] + entries);
    }
    var cleanup := Unlink(tempVideoPath);
    outcome := if env.cleanup then Fulfilled else Rejected;
    log := log + [if env.cleanup then Done(cleanup) else Failed(cleanup)];
  }
}
