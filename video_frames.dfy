/** Frame sampling of the gesture dataset (Video_Utils/extract_frames.py):
    every `interval`-th frame of each `.mp4` under `<gesture>/videos/` is
    saved as `frame_NNN.png` in `<gesture>/frames/<stem>/`. The video
    capture is reduced to its frame rate and its number of readable frames;
    decoding and writing images are not modelled. */
module VideoFrames {
  import opened PyNum
  import opened PyStr
  import opened PyPath

  /** `max(1, frame_rate // fps)`, with Python's floor division. */
  function Interval(frameRate: int, fps: int): (i: int)
    requires fps != 0
    ensures i >= 1
    ensures FloorDiv(frameRate, fps) >= 1 ==> i == FloorDiv(frameRate, fps)
  {
    MaxInt(1, FloorDiv(frameRate, fps))
  }

  /** The name of the `saved`-th image, `f"frame_{saved:03d}.png"`. */
  function FrameName(saved: nat): string {
    "frame_" + ZeroPad(saved, 3) + ".png"
  }

  /** An image written: its file name and the number of the frame in it. */
  datatype SavedFrame = SavedFrame(name: string, frame: nat)

  /** The number of frames among the first `n` whose number is a multiple
      of `interval`: `ceil(n / interval)`. */
  function SavedCount(n: nat, interval: int): nat
    requires interval >= 1
  {
    (n + interval - 1) / interval
  }

  /** What sampling `n` frames every `interval` frames writes. */
  function Sampled(n: nat, interval: int): seq<SavedFrame>
    requires interval >= 1
  {
    seq(SavedCount(n, interval), k requires 0 <= k => SavedFrame(FrameName(k), k * interval))
  }

  /** The read loop of `extract_frames` for a capture that yields `n`
      frames: frame `count` is saved when `count % interval == 0`, under the
      next number. */
  method SampleFrames(n: nat, interval: int) returns (saved: nat, written: seq<SavedFrame>)
    requires interval >= 1
    ensures saved == |written| == SavedCount(n, interval)
    ensures written == Sampled(n, interval)
  {
    var count: nat := 0;
    saved := 0;
    written := [];
    while count < n
      invariant count <= n
      invariant saved == SavedCount(count, interval)
      invariant written == Sampled(count, interval)
    {
      CountStep(count, interval);
      if count % interval == 0 {
        written := written + [SavedFrame(FrameName(saved), count)];
        saved := saved + 1;
      }
      count := count + 1;
    }
  }

  /** A video file in a `videos` folder: its name, the frame rate its
      capture reports and the number of frames it yields before `read`
      fails. */
  datatype VideoFile = VideoFile(name: string, frameRate: int, frameCount: nat)

  /** What the `videos` path of an entry is: missing, something other than
      a folder (listing it raises), or a folder and its listing. */
  datatype VideosPath = Absent | NotAFolder | Folder(files: seq<VideoFile>)

  /** An entry of the dataset folder and its `videos` path. */
  datatype GestureDir = GestureDir(name: string, isDir: bool, videos: VideosPath)

  /** The images written for one video, and the folder they go in. */
  datatype Extraction = Extraction(folder: string, frames: seq<SavedFrame>)

  /** The progress of a run: the videos extracted so far, and whether the
      run stopped on an error (a division by zero when `fps == 0`, or a
      `videos` path that cannot be listed). */
  datatype Run = Run(done: seq<Extraction>, crashed: bool)

  /** `<base>/<gesture>/frames/<stem>`. */
  function FramesFolder(base: string, gesture: string, file: string): string {
    Join(Join(Join(base, gesture), "frames"), SplitExtRoot(file))
  }

  /** What processing one video writes, for a non-zero `fps`. */
  function ExtractionOf(base: string, gesture: string, fps: int, v: VideoFile): Extraction
    requires fps != 0
  {
    Extraction(FramesFolder(base, gesture, v.name), Sampled(v.frameCount, Interval(v.frameRate, fps)))
  }

  /** One entry of a `videos` listing: names not ending in `.mp4` (case
      matters) are skipped; with `fps == 0` the interval's division raises
      and the run stops. */
  function StepVideo(base: string, gesture: string, fps: int, r: Run, v: VideoFile): Run {
    if r.crashed || !EndsWith(v.name, ".mp4") then r
    else if fps == 0 then Run(r.done, true)
    else Run(r.done + [ExtractionOf(base, gesture, fps, v)], false)
  }

  function RunVideos(base: string, gesture: string, fps: int, r: Run, vs: seq<VideoFile>): Run {
    if |vs| == 0 then r
    else StepVideo(base, gesture, fps, RunVideos(base, gesture, fps, r, vs[..|vs| - 1]), vs[|vs| - 1])
  }

  /** One entry of the dataset folder: files and gestures without a
      `videos` path are skipped; a `videos` path that exists but is not a
      folder makes the listing raise and stops the run. */
  function StepGesture(base: string, fps: int, r: Run, g: GestureDir): Run {
    if !g.isDir || g.videos.Absent? then r
    else if g.videos.NotAFolder? then Run(r.done, true)
    else RunVideos(base, g.name, fps, r, g.videos.files)
  }

  function RunGestures(base: string, fps: int, r: Run, gs: seq<GestureDir>): Run {
    if |gs| == 0 then r
    else StepGesture(base, fps, RunGestures(base, fps, r, gs[..|gs| - 1]), gs[|gs| - 1])
  }

  /** The loop over one gesture's `videos` listing. */
  method ExtractVideos(base: string, gesture: string, fps: int, runIn: Run, vs: seq<VideoFile>)
    returns (run: Run)
    requires !runIn.crashed
    ensures run == RunVideos(base, gesture, fps, runIn, vs)
  {
    run := runIn;
    for k := 0 to |vs|
      invariant run == RunVideos(base, gesture, fps, runIn, vs[..k]) && !run.crashed
    {
      assert vs[..k + 1][..k] == vs[..k];
      var file := vs[k];
      if !EndsWith(file.name, ".mp4") {
        continue;
      }
      var folder := FramesFolder(base, gesture, file.name);
      if fps == 0 {
        run := Run(run.done, true);
        CrashStops(base, gesture, fps, runIn, vs, k + 1);
        return;
      }
      var interval := Interval(file.frameRate, fps);
      var saved, written := SampleFrames(file.frameCount, interval);
      run := Run(run.done + [Extraction(folder, written)], false);
    }
    assert vs[..|vs|] == vs;
  }

  /** `extract_frames(base_path, fps)`. */
  method ExtractFrames(base: string, entries: seq<GestureDir>, fps: int) returns (run: Run)
    ensures run == RunGestures(base, fps, Run([], false), entries)
  {
    run := Run([], false);
    for i := 0 to |entries|
      invariant run == RunGestures(base, fps, Run([], false), entries[..i]) && !run.crashed
    {
      assert entries[..i + 1][..i] == entries[..i];
      var g := entries[i];
      if !g.isDir || g.videos.Absent? {
        continue;
      }
      if g.videos.NotAFolder? {
        run := Run(run.done, true);
        GestureCrashStops(base, fps, Run([], false), entries, i + 1);
        return;
      }
      run := ExtractVideos(base, g.name, fps, run, g.videos.files);
      if run.crashed {
        GestureCrashStops(base, fps, Run([], false), entries, i + 1);
        return;
      }
    }
    assert entries[..|entries|] == entries;
  }

  /** Once a run has stopped, the rest of the listing changes nothing. */
  lemma {:induction false} CrashStops(base: string, gesture: string, fps: int, r: Run,
                                      vs: seq<VideoFile>, k: nat)
    requires k <= |vs| && RunVideos(base, gesture, fps, r, vs[..k]).crashed
    ensures RunVideos(base, gesture, fps, r, vs) == RunVideos(base, gesture, fps, r, vs[..k])
  {
    if k < |vs| {
      assert vs[..|vs| - 1][..k] == vs[..k];
      CrashStops(base, gesture, fps, r, vs[..|vs| - 1], k);
    } else {
      assert vs[..k] == vs;
    }
  }

  /** A stopped run passes through a gesture's listing unchanged. */
  lemma {:induction false} CrashedVideos(base: string, gesture: string, fps: int, r: Run,
                                         vs: seq<VideoFile>)
    requires r.crashed
    ensures RunVideos(base, gesture, fps, r, vs) == r
  {
    if |vs| > 0 {
      CrashedVideos(base, gesture, fps, r, vs[..|vs| - 1]);
    }
  }

  lemma {:induction false} GestureCrashStops(base: string, fps: int, r: Run,
                                             gs: seq<GestureDir>, k: nat)
    requires k <= |gs| && RunGestures(base, fps, r, gs[..k]).crashed
    ensures RunGestures(base, fps, r, gs) == RunGestures(base, fps, r, gs[..k])
  {
    if k < |gs| {
      assert gs[..|gs| - 1][..k] == gs[..k];
      GestureCrashStops(base, fps, r, gs[..|gs| - 1], k);
      var g := gs[|gs| - 1];
      if g.isDir && g.videos.Folder? {
        CrashedVideos(base, g.name, fps, RunGestures(base, fps, r, gs[..|gs| - 1]), g.videos.files);
      }
    } else {
      assert gs[..k] == gs;
    }
  }

  /** One more frame adds one to the count exactly when its number is a
      multiple of the interval, and that frame is the next multiple. */
  lemma CountStep(c: nat, i: int)
    requires i >= 1
    ensures SavedCount(c + 1, i) == SavedCount(c, i) + (if c % i == 0 then 1 else 0)
    ensures c % i == 0 ==> SavedCount(c, i) * i == c
  {
    var q, r := c / i, c % i;
    assert c == q * i + r;
    if r == 0 {
      DivUnique(c + i - 1, i, q, i - 1);
      DivUnique(c + i, i, q + 1, 0);
    } else {
      DivUnique(c + i - 1, i, q + 1, r - 1);
      DivUnique(c + i, i, q + 1, r);
    }
  }

  /** Euclidean division is determined by a quotient and remainder. */
  lemma DivUnique(a: int, i: int, q: int, r: int)
    requires i >= 1 && 0 <= r < i && a == q * i + r
    ensures a / i == q
  {
    var q0, r0 := a / i, a % i;
    assert (q0 - q) * i == r - r0;
    if q0 > q {
      MulAtLeast(q0 - q, i);
    } else if q0 < q {
      MulAtLeast(q - q0, i);
    }
  }

  lemma MulAtLeast(d: int, i: int)
    requires d >= 1 && i >= 1
    ensures d * i >= i
  {
    assert d * i == i + (d - 1) * i;
  }

  // ---------------------------------------------------------------------
  // Properties

  /** The saved frames are exactly the frames below `n` whose number is a
      multiple of the interval, in increasing order, the k-th of them named
      `frame_<k>.png`. */
  lemma SampledExactly(n: nat, i: int)
    requires i >= 1
    ensures var s := Sampled(n, i);
      (forall k :: 0 <= k < |s| ==> s[k].frame < n && s[k].frame % i == 0 && s[k].name == FrameName(k))
      && (forall j, k :: 0 <= j < k < |s| ==> s[j].frame < s[k].frame)
      && (forall c :: 0 <= c < n && c % i == 0 ==> exists k :: 0 <= k < |s| && s[k].frame == c)
  {
    SampledBelow(n, i);
    SampledIncreasing(n, i);
    SampledComplete(n, i);
  }

  lemma SampledBelow(n: nat, i: int)
    requires i >= 1
    ensures var s := Sampled(n, i);
      forall k :: 0 <= k < |s| ==> s[k].frame < n && s[k].frame % i == 0 && s[k].name == FrameName(k)
  {
    var s := Sampled(n, i);
    forall k | 0 <= k < |s|
      ensures s[k].frame < n && s[k].frame % i == 0
    {
      assert s[k].frame == k * i;
      MultipleMod(i, k);
      Below(n, i, k);
    }
  }

  /** A multiple of the interval leaves no remainder. */
  lemma MultipleMod(i: int, k: nat)
    requires i >= 1
    ensures (k * i) % i == 0
  {
    DivUnique(k * i, i, k, 0);
    assert k * i == (k * i) / i * i + (k * i) % i;
  }

  lemma SampledIncreasing(n: nat, i: int)
    requires i >= 1
    ensures var s := Sampled(n, i);
      forall j, k :: 0 <= j < k < |s| ==> s[j].frame < s[k].frame
  {
    var s := Sampled(n, i);
    forall j, k | 0 <= j < k < |s|
      ensures s[j].frame < s[k].frame
    {
      Increasing(i, j, k);
    }
  }

  lemma SampledComplete(n: nat, i: int)
    requires i >= 1
    ensures var s := Sampled(n, i);
      forall c :: 0 <= c < n && c % i == 0 ==> exists k :: 0 <= k < |s| && s[k].frame == c
  {
    var s := Sampled(n, i);
    forall c | 0 <= c < n && c % i == 0
      ensures exists k :: 0 <= k < |s| && s[k].frame == c
    {
      var k := c / i;
      assert k * i == c;
      Above(n, i, k);
      assert s[k].frame == c;
    }
  }

  lemma Increasing(i: int, j: nat, k: nat)
    requires i >= 1 && j < k
    ensures j * i < k * i
  {
    MulAtLeast(k - j, i);
    assert k * i - j * i == (k - j) * i;
  }

  /** A saved index is below the count: its frame is below `n`. */
  lemma Below(n: nat, i: int, k: nat)
    requires i >= 1 && k < SavedCount(n, i)
    ensures k * i < n
  {
    var q := (n + i - 1) / i;
    assert q * i <= n + i - 1;
    MulAtLeast(q - k, i);
    assert q * i - k * i == (q - k) * i;
  }

  /** A multiple of the interval below `n` has a saved index. */
  lemma Above(n: nat, i: int, k: nat)
    requires i >= 1 && k * i < n
    ensures k < SavedCount(n, i)
  {
    var q := (n + i - 1) / i;
    var r := (n + i - 1) % i;
    assert n + i - 1 == q * i + r;
    if q <= k {
      MulAtLeast(k - q + 1, i);
    }
  }

  /** Different numbers give different image names. */
  lemma FrameNamesDistinct(j: nat, k: nat)
    requires FrameName(j) == FrameName(k)
    ensures j == k
  {
    var a, b := ZeroPad(j, 3), ZeroPad(k, 3);
    assert |a| == |b|;
    assert a == FrameName(j)[6..6 + |a|];
    assert b == FrameName(k)[6..6 + |b|];
  }

  /** With a non-zero `fps` a listing never stops the run and adds the
      extraction of each of its `.mp4` files. */
  lemma {:induction false} VideosDone(base: string, gesture: string, fps: int, r: Run,
                                      vs: seq<VideoFile>)
    requires fps != 0 && !r.crashed
    ensures var o := RunVideos(base, gesture, fps, r, vs);
      !o.crashed
      && forall e :: e in o.done <==>
           (e in r.done
            || exists v :: v in vs && EndsWith(v.name, ".mp4") && e == ExtractionOf(base, gesture, fps, v))
  {
    if |vs| > 0 {
      var init := vs[..|vs| - 1];
      VideosDone(base, gesture, fps, r, init);
      assert forall v :: v in vs <==> v in init || v == vs[|vs| - 1];
    }
  }

  /** With a non-zero `fps` the run stops exactly when some gesture
      directory's `videos` path is not a folder; otherwise it extracts
      exactly the `.mp4` files in the `videos` folders of the gesture
      directories. */
  lemma {:induction false} GesturesDone(base: string, fps: int, r: Run, gs: seq<GestureDir>)
    requires fps != 0 && !r.crashed
    ensures var o := RunGestures(base, fps, r, gs);
      (o.crashed <==> exists g :: g in gs && g.isDir && g.videos.NotAFolder?)
      && (!o.crashed ==>
            forall e :: e in o.done <==>
              (e in r.done
               || exists g, v :: g in gs && g.isDir && g.videos.Folder? && v in g.videos.files
                    && EndsWith(v.name, ".mp4") && e == ExtractionOf(base, g.name, fps, v)))
  {
    if |gs| > 0 {
      var init := gs[..|gs| - 1];
      var g := gs[|gs| - 1];
      var prev := RunGestures(base, fps, r, init);
      GesturesDone(base, fps, r, init);
      assert forall h :: h in gs <==> h in init || h == g;
      if g.isDir && g.videos.Folder? {
        if prev.crashed {
          CrashedVideos(base, g.name, fps, prev, g.videos.files);
        } else {
          VideosDone(base, g.name, fps, prev, g.videos.files);
        }
      }
    }
  }

  /** With `fps == 0` nothing is extracted, and the run stops exactly when
      it meets an `.mp4` file in a listing. */
  lemma {:induction false} VideosZeroFps(base: string, gesture: string, r: Run, vs: seq<VideoFile>)
    ensures var o := RunVideos(base, gesture, 0, r, vs);
      o.done == r.done
      && (o.crashed <==> r.crashed || exists v :: v in vs && EndsWith(v.name, ".mp4"))
  {
    if |vs| > 0 {
      var init := vs[..|vs| - 1];
      VideosZeroFps(base, gesture, r, init);
      assert forall v :: v in vs <==> v in init || v == vs[|vs| - 1];
    }
  }

  /** With `fps == 0` the whole run extracts nothing, and it fails exactly
      when some gesture directory's `videos` path is not a folder or lists
      an `.mp4` file. */
  lemma {:induction false} GesturesZeroFps(base: string, r: Run, gs: seq<GestureDir>)
    ensures var o := RunGestures(base, 0, r, gs);
      o.done == r.done
      && (o.crashed <==>
            (r.crashed
             || (exists g :: g in gs && g.isDir && g.videos.NotAFolder?)
             || exists g, v :: g in gs && g.isDir && g.videos.Folder? && v in g.videos.files
                  && EndsWith(v.name, ".mp4")))
  {
    if |gs| > 0 {
      var init := gs[..|gs| - 1];
      var g := gs[|gs| - 1];
      GesturesZeroFps(base, r, init);
      assert forall h :: h in gs <==> h in init || h == g;
      if g.isDir && g.videos.Folder? {
        VideosZeroFps(base, g.name, RunGestures(base, 0, r, init), g.videos.files);
      }
    }
  }
}
