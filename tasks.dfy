/**
 * The two background tasks: `convert_video_to_hls`, which encodes the source
 * of a video into three HLS renditions, and `generate_thumbnail`, which
 * extracts one still frame. Each is a method over the Backend proved against a
 * specification function of the table before the run; the lemmas below state
 * what those functions promise.
 */
module Tasks {
  import opened PathLayout
  import opened Videos

  // ---------------------------------------------------------------------------
  // Configuration and commands
  // ---------------------------------------------------------------------------

  /** One rung of the resolution ladder. */
  datatype Rendition = Rendition(name: string, scale: string, bitrate: string)

  /** The fixed ladder, in the order the task walks it. */
  const Ladder: seq<Rendition> := [
    Rendition("480p", "854:480", "800k"),
    Rendition("720p", "1280:720", "2500k"),
    Rendition("1080p", "1920:1080", "5000k")
  ]

  /** `video.video_file.path`: the stored file name under the media root; an
      absolute stored name is used as it is. */
  function InputPath(root: string, videoFile: string): (r: string)
    ensures videoFile != [] && videoFile[0] == '/' ==> r == videoFile
    ensures videoFile == [] || videoFile[0] != '/' ==> r == DirPrefix(root) + videoFile
  {
    assert [videoFile][1..] == [];
    assert Join(root, [videoFile]) == JoinStep(root, videoFile);
    assert videoFile == [] ==> DirPrefix(root) + videoFile == DirPrefix(root);
    Join(root, [videoFile])
  }

  /** The encoder argument list for one rendition written into `outDir`. */
  function HlsCommand(input: string, outDir: string, r: Rendition): seq<string> {
    ["ffmpeg", "-i", input,
     "-vf", "scale=" + r.scale,
     "-c:v", "libx264",
     "-b:v", r.bitrate,
     "-c:a", "aac",
     "-hls_time", "6",
     "-hls_playlist_type", "vod",
     "-hls_segment_filename", Join(outDir, ["segment_%03d.ts"]),
     Join(outDir, ["index.m3u8"])]
  }

  /** The encoder argument list that grabs one 640x360 frame ten seconds into the source. */
  function ThumbnailCommand(input: string, thumbnailPath: string): seq<string> {
    ["ffmpeg", "-i", input, "-ss", "00:00:10", "-vframes", "1", "-vf", "scale=640:360", thumbnailPath, "-y"]
  }

  // ---------------------------------------------------------------------------
  // Specification of the transcode task
  // ---------------------------------------------------------------------------

  /** Where an exception escapes the per-rung handler: the first save, the setup
      before the ladder (creating the output directory, resolving the source
      path), or the final save. */
  datatype FaultPoint = FirstSave | Setup | FinalSave

  /** Whether the run hits an outer exception, and whether the recovery save then fails too. */
  datatype JobFault = NoFault | Fault(point: FaultPoint, recoveryFails: bool)

  function Started(row: VideoRow): VideoRow {
    row.(isProcessing := true)
  }

  /** The flags after walking `rungs`: each rung whose encoder exited with 0 sets its flag. */
  function ApplyRungs(row: VideoRow, rungs: seq<Rendition>, outs: seq<Outcome>): (r: VideoRow)
    requires |rungs| == |outs|
    ensures r.(has480p := row.has480p, has720p := row.has720p, has1080p := row.has1080p) == row
    decreases |rungs|
  {
    if rungs == [] then row
    else
      var prev := ApplyRungs(row, rungs[..|rungs| - 1], outs[..|outs| - 1]);
      if outs[|outs| - 1] == Exited(0) then SetFlag(prev, rungs[|rungs| - 1].name) else prev
  }

  /** The encoder run of one rung of video `id`. */
  function RungEffect(input: string, root: string, id: nat, r: Rendition, out: Outcome): Effect {
    Encoded(HlsCommand(input, RenditionDir(root, id, r.name), r), out)
  }

  /** The encoder runs of `rungs`, in order. */
  function RungEffects(input: string, root: string, id: nat, rungs: seq<Rendition>, outs: seq<Outcome>): seq<Effect>
    requires |rungs| == |outs|
    decreases |rungs|
  {
    if rungs == [] then []
    else
      var r := rungs[|rungs| - 1];
      RungEffects(input, root, id, rungs[..|rungs| - 1], outs[..|outs| - 1])
        + [RungEffect(input, root, id, r, outs[|outs| - 1])]
  }

  /** The row the final save writes, from the row the first save stored: the flags
      of the rungs that succeeded, the fixed `hls_path`, not processing, complete. */
  function Finished(started: VideoRow, id: nat, outs: seq<Outcome>): VideoRow
    requires |outs| == |Ladder|
  {
    ApplyRungs(started, Ladder, outs).(hlsPath := HlsRoot(id), isProcessing := false, processingComplete := true)
  }

  /** The row the recovery handler saves: the current row with `is_processing` cleared. */
  function Recovery(id: nat, current: VideoRow, recoveryFails: bool): seq<Effect> {
    if recoveryFails then [] else [Saved(id, current.(isProcessing := false))]
  }

  predicate HasSource(videos: map<nat, VideoRow>, id: nat) {
    id in videos && videos[id].videoFile != ""
  }

  /** The row left in the table by a run whose first save stored `started`. */
  function AfterStartRow(started: VideoRow, id: nat, outs: seq<Outcome>, fault: JobFault): VideoRow
    requires |outs| == |Ladder|
  {
    match fault
    case NoFault => Finished(started, id, outs)
    case Fault(_, recoveryFails) => if recoveryFails then started else started.(isProcessing := false)
  }

  /** The row `convert_video_to_hls` leaves in the table for a video that has a source. */
  function TranscodeRow(row: VideoRow, id: nat, outs: seq<Outcome>, fault: JobFault): VideoRow
    requires |outs| == |Ladder|
  {
    if fault.Fault? && fault.point == FirstSave then
      if fault.recoveryFails then row else row.(isProcessing := false)
    else AfterStartRow(Started(row), id, outs, fault)
  }

  /** The table after `convert_video_to_hls(id)`. */
  function TranscodeVideos(videos: map<nat, VideoRow>, id: nat, outs: seq<Outcome>, fault: JobFault): (r: map<nat, VideoRow>)
    requires |outs| == |Ladder|
    ensures r.Keys == videos.Keys
    ensures forall other :: other in videos && other != id ==> r[other] == videos[other]
  {
    if !HasSource(videos, id) then videos
    else videos[id := TranscodeRow(videos[id], id, outs, fault)]
  }

  /** The effects of a run after the first save has stored `started`: the encoder
      runs and the final save, or the recovery save of the outer handler. */
  function AfterStartEffects(started: VideoRow, root: string, id: nat, outs: seq<Outcome>, fault: JobFault): seq<Effect>
    requires |outs| == |Ladder|
  {
    if fault.Fault? && fault.point == Setup then Recovery(id, started, fault.recoveryFails)
    else
      RungEffects(InputPath(root, started.videoFile), root, id, Ladder, outs)
        + if fault.NoFault? then [Saved(id, Finished(started, id, outs))] else Recovery(id, started, fault.recoveryFails)
  }

  /** The effects of a run on a video whose record `row` has a source. */
  function RunEffects(row: VideoRow, root: string, id: nat, outs: seq<Outcome>, fault: JobFault): seq<Effect>
    requires |outs| == |Ladder|
  {
    if fault.Fault? && fault.point == FirstSave then Recovery(id, row, fault.recoveryFails)
    else [Saved(id, Started(row))] + AfterStartEffects(Started(row), root, id, outs, fault)
  }

  /** The effects of `convert_video_to_hls(id)`, in order. */
  function TranscodeEffects(videos: map<nat, VideoRow>, root: string, id: nat, outs: seq<Outcome>, fault: JobFault): seq<Effect>
    requires |outs| == |Ladder|
  {
    if !HasSource(videos, id) then [] else RunEffects(videos[id], root, id, outs, fault)
  }

  // ---------------------------------------------------------------------------
  // The transcode task
  // ---------------------------------------------------------------------------

  /** The outer exception handler: re-reads the row and saves it with `is_processing` cleared. */
  method ResetProcessing(b: Backend, id: nat, saveFails: bool)
    modifies b
    ensures b.videos == if id in old(b.videos) && !saveFails
                        then old(b.videos)[id := old(b.videos)[id].(isProcessing := false)]
                        else old(b.videos)
    ensures b.effects == old(b.effects) +
                         if id in old(b.videos) then Recovery(id, old(b.videos)[id], saveFails) else []
  {
    var video := b.Get(id);
    if video != null {
      video.isProcessing := false;
      if !saveFails {
        b.Save(video);
      }
    }
  }

  /** The `for res in resolutions` loop: one encoder run per rung, in order; a rung
      whose encoder exits with 0 sets its flag, any other outcome leaves the flags
      alone and the loop goes on. */
  method EncodeLadder(b: Backend, video: Video, root: string, input: string, rungs: seq<Rendition>, outs: seq<Outcome>)
    requires |outs| == |rungs|
    modifies b, video
    ensures video.Row() == ApplyRungs(old(video.Row()), rungs, outs)
    ensures b.videos == old(b.videos)
    ensures b.effects == old(b.effects) + RungEffects(input, root, video.id, rungs, outs)
  {
    ghost var row0, videos0, effects0 := video.Row(), b.videos, b.effects;
    var i := 0;
    while i < |rungs|
      invariant 0 <= i <= |rungs|
      invariant video.Row() == ApplyRungs(row0, rungs[..i], outs[..i])
      invariant b.videos == videos0
      invariant b.effects == effects0 + RungEffects(input, root, video.id, rungs[..i], outs[..i])
    {
      LadderPrefixStep(row0, input, root, video.id, rungs, outs, i);
      EncodeRung(b, video, root, input, rungs[i], outs[i]);
      AppendAssoc(effects0, RungEffects(input, root, video.id, rungs[..i], outs[..i]),
                  [RungEffect(input, root, video.id, rungs[i], outs[i])]);
      i := i + 1;
    }
    assert rungs[..i] == rungs && outs[..i] == outs;
  }

  /** One pass of the loop body: run the encoder for rung `r`, set its flag on exit 0. */
  method EncodeRung(b: Backend, video: Video, root: string, input: string, r: Rendition, out: Outcome)
    modifies b, video
    ensures video.Row() == if out == Exited(0) then SetFlag(old(video.Row()), r.name) else old(video.Row())
    ensures b.videos == old(b.videos)
    ensures b.effects == old(b.effects) + [RungEffect(input, root, video.id, r, out)]
  {
    b.RunEncoder(HlsCommand(input, RenditionDir(root, video.id, r.name), r), out);
    if out == Exited(0) {
      video.MarkAvailable(r.name);
    }
  }

  /** The specification functions on a prefix one rung longer. */
  lemma LadderPrefixStep(row: VideoRow, input: string, root: string, id: nat,
                         rungs: seq<Rendition>, outs: seq<Outcome>, i: nat)
    requires |outs| == |rungs| && i < |rungs|
    ensures ApplyRungs(row, rungs[..i + 1], outs[..i + 1]) ==
            var prev := ApplyRungs(row, rungs[..i], outs[..i]);
            if outs[i] == Exited(0) then SetFlag(prev, rungs[i].name) else prev
    ensures RungEffects(input, root, id, rungs[..i + 1], outs[..i + 1]) ==
            RungEffects(input, root, id, rungs[..i], outs[..i]) + [RungEffect(input, root, id, rungs[i], outs[i])]
  {
    assert rungs[..i + 1][..i] == rungs[..i];
    assert outs[..i + 1][..i] == outs[..i];
  }

  /** `convert_video_to_hls(video_id)`. `outs[k]` is how the encoder run of rung k ends. */
  method ConvertVideoToHls(b: Backend, root: string, id: nat, outs: seq<Outcome>, fault: JobFault)
    requires |outs| == |Ladder|
    modifies b
    ensures b.videos == TranscodeVideos(old(b.videos), id, outs, fault)
    ensures b.effects == old(b.effects) + TranscodeEffects(old(b.videos), root, id, outs, fault)
  {
    var video := b.Get(id);
    if video == null || video.videoFile == "" {
      return;
    }
    Run(b, video, root, outs, fault);
  }

  /** The run on a loaded record that has a source: the first save, then the rest,
      or the recovery when the first save raises. */
  method Run(b: Backend, video: Video, root: string, outs: seq<Outcome>, fault: JobFault)
    requires |outs| == |Ladder|
    requires video.id in b.videos && b.videos[video.id] == video.Row()
    modifies b, video
    ensures b.videos == old(b.videos)[video.id := TranscodeRow(old(video.Row()), video.id, outs, fault)]
    ensures b.effects == old(b.effects) + RunEffects(old(video.Row()), root, video.id, outs, fault)
  {
    ghost var row, videos0, effects0 := video.Row(), b.videos, b.effects;
    video.isProcessing := true;
    if fault.Fault? && fault.point == FirstSave {
      FirstSaveRaises(b, video, fault.recoveryFails);
      RunSteps(videos0, effects0, row, root, video.id, outs, fault);
      return;
    }
    b.Save(video);
    RunAfterStart(b, video, root, outs, fault);
    RunSteps(videos0, effects0, row, root, video.id, outs, fault);
  }

  /** The first save raises: the handler saves the row as loaded, `is_processing` cleared. */
  method FirstSaveRaises(b: Backend, video: Video, recoveryFails: bool)
    requires video.id in b.videos
    modifies b
    ensures b.videos == if recoveryFails then old(b.videos)
                        else old(b.videos)[video.id := old(b.videos)[video.id].(isProcessing := false)]
    ensures b.effects == old(b.effects) + Recovery(video.id, old(b.videos)[video.id], recoveryFails)
  {
    ResetProcessing(b, video.id, recoveryFails);
  }

  /** How the table and the log after the two parts of a run compose into those of the whole run. */
  lemma RunSteps(videos0: map<nat, VideoRow>, effects0: seq<Effect>, row: VideoRow, root: string, id: nat,
                 outs: seq<Outcome>, fault: JobFault)
    requires |outs| == |Ladder|
    requires id in videos0 && videos0[id] == row
    ensures fault.Fault? && fault.point == FirstSave ==>
              && (if fault.recoveryFails then videos0 else videos0[id := row.(isProcessing := false)])
                 == videos0[id := TranscodeRow(row, id, outs, fault)]
              && effects0 + Recovery(id, row, fault.recoveryFails) == effects0 + RunEffects(row, root, id, outs, fault)
    ensures !(fault.Fault? && fault.point == FirstSave) ==>
              && videos0[id := Started(row)][id := AfterStartRow(Started(row), id, outs, fault)]
                 == videos0[id := TranscodeRow(row, id, outs, fault)]
              && effects0 + [Saved(id, Started(row))] + AfterStartEffects(Started(row), root, id, outs, fault)
                 == effects0 + RunEffects(row, root, id, outs, fault)
  {
    if fault.Fault? && fault.point == FirstSave {
      assert videos0[id := row] == videos0;
    } else {
      AppendAssoc(effects0, [Saved(id, Started(row))], AfterStartEffects(Started(row), root, id, outs, fault));
    }
  }

  /** The rest of a run once the first save has stored the row with `is_processing` set. */
  method RunAfterStart(b: Backend, video: Video, root: string, outs: seq<Outcome>, fault: JobFault)
    requires |outs| == |Ladder|
    requires !(fault.Fault? && fault.point == FirstSave)
    requires video.id in b.videos && b.videos[video.id] == video.Row() && video.isProcessing
    modifies b, video
    ensures b.videos == old(b.videos)[video.id := AfterStartRow(old(video.Row()), video.id, outs, fault)]
    ensures b.effects == old(b.effects) + AfterStartEffects(old(video.Row()), root, video.id, outs, fault)
  {
    if fault.Fault? && fault.point == Setup {
      ResetProcessing(b, video.id, fault.recoveryFails);
      return;
    }
    EncodeAndFinish(b, video, root, outs, fault);
  }

  /** The ladder and the final save, or the recovery save when the final save raises. */
  method EncodeAndFinish(b: Backend, video: Video, root: string, outs: seq<Outcome>, fault: JobFault)
    requires |outs| == |Ladder|
    requires fault.NoFault? || fault.point == FinalSave
    requires video.id in b.videos && b.videos[video.id] == video.Row() && video.isProcessing
    modifies b, video
    ensures b.videos == old(b.videos)[video.id := AfterStartRow(old(video.Row()), video.id, outs, fault)]
    ensures b.effects == old(b.effects) + AfterStartEffects(old(video.Row()), root, video.id, outs, fault)
  {
    ghost var started, effects0 := video.Row(), b.effects;
    var input := InputPath(root, video.videoFile);
    EncodeLadder(b, video, root, input, Ladder, outs);
    ghost var rungs := RungEffects(input, root, video.id, Ladder, outs);
    video.hlsPath := HlsRoot(video.id);
    video.isProcessing := false;
    video.processingComplete := true;
    if fault.Fault? {
      ResetProcessing(b, video.id, fault.recoveryFails);
      AppendAssoc(effects0, rungs, Recovery(video.id, started, fault.recoveryFails));
      return;
    }
    b.Save(video);
    AppendAssoc(effects0, rungs, [Saved(video.id, Finished(started, video.id, outs))]);
  }

  lemma AppendAssoc<T>(a: seq<T>, b: seq<T>, c: seq<T>)
    ensures a + b + c == a + (b + c)
  {
  }

  // ---------------------------------------------------------------------------
  // Properties of the transcode task
  // ---------------------------------------------------------------------------

  /** Walking the rungs sets a flag exactly when it was set before or some rung of
      that name had its encoder exit with 0; a failed or raising rung does not stop
      the later ones and no flag is ever cleared. */
  lemma {:induction false} ApplyRungsFlag(row: VideoRow, rungs: seq<Rendition>, outs: seq<Outcome>, name: string)
    requires |rungs| == |outs|
    requires name in {"480p", "720p", "1080p"}
    ensures Flag(ApplyRungs(row, rungs, outs), name) <==>
            Flag(row, name) || exists k :: 0 <= k < |rungs| && rungs[k].name == name && outs[k] == Exited(0)
    decreases |rungs|
  {
    if rungs != [] {
      var n := |rungs| - 1;
      var rs, os := rungs[..n], outs[..n];
      ApplyRungsFlag(row, rs, os, name);
      var before := exists k :: 0 <= k < |rs| && rs[k].name == name && os[k] == Exited(0);
      var after := exists k :: 0 <= k < |rungs| && rungs[k].name == name && outs[k] == Exited(0);
      if before {
        var k :| 0 <= k < |rs| && rs[k].name == name && os[k] == Exited(0);
        assert rungs[k] == rs[k] && outs[k] == os[k];
      }
      if after {
        var k :| 0 <= k < |rungs| && rungs[k].name == name && outs[k] == Exited(0);
        if k < n {
          assert rs[k] == rungs[k] && os[k] == outs[k];
        }
      }
    }
  }

  /** After a run without an outer exception, the flag of rung k is set iff it was set
      before or the encoder of rung k exited with 0. */
  lemma TranscodeFlag(videos: map<nat, VideoRow>, id: nat, outs: seq<Outcome>, k: nat)
    requires |outs| == |Ladder| && HasSource(videos, id) && k < |Ladder|
    ensures Flag(TranscodeVideos(videos, id, outs, NoFault)[id], Ladder[k].name) <==>
            Flag(videos[id], Ladder[k].name) || outs[k] == Exited(0)
  {
    var name := Ladder[k].name;
    ApplyRungsFlag(Started(videos[id]), Ladder, outs, name);
    if outs[k] == Exited(0) {
      assert Ladder[k].name == name;
    }
  }

  /** A run without an outer exception always ends with the fixed HLS path, not
      processing and complete, whatever the encoder outcomes (none succeeding
      included); the source, the thumbnail fields and every other record are kept. */
  lemma TranscodeCompletes(videos: map<nat, VideoRow>, id: nat, outs: seq<Outcome>)
    requires |outs| == |Ladder| && HasSource(videos, id)
    ensures var after := TranscodeVideos(videos, id, outs, NoFault);
            && id in after
            && after[id].hlsPath == "videos/hls/video_" + NatStr(id)
            && !after[id].isProcessing && after[id].processingComplete
            && after[id].videoFile == videos[id].videoFile
            && after[id].thumbnailImage == videos[id].thumbnailImage
            && after[id].thumbnailUrl == videos[id].thumbnailUrl
            && (forall other :: other != id ==> (other in after <==> other in videos))
            && (forall other :: other != id && other in videos ==> after[other] == videos[other])
  {
  }

  /** The example run where 480p succeeds, 720p exits non-zero and 1080p raises. */
  lemma PartialFailure(videos: map<nat, VideoRow>, id: nat)
    requires HasSource(videos, id)
    ensures var after := TranscodeVideos(videos, id, [Exited(0), Exited(1), Raised], NoFault)[id];
            && after.has480p
            && after.has720p == videos[id].has720p
            && after.has1080p == videos[id].has1080p
            && after.processingComplete && !after.isProcessing
  {
    var outs := [Exited(0), Exited(1), Raised];
    TranscodeFlag(videos, id, outs, 0);
    TranscodeFlag(videos, id, outs, 1);
    TranscodeFlag(videos, id, outs, 2);
  }

  /** A flag set before the run is still set after it, whatever the outcomes and faults. */
  lemma FlagsNeverCleared(videos: map<nat, VideoRow>, id: nat, outs: seq<Outcome>, fault: JobFault, name: string)
    requires |outs| == |Ladder| && id in videos && Flag(videos[id], name)
    ensures id in TranscodeVideos(videos, id, outs, fault)
    ensures Flag(TranscodeVideos(videos, id, outs, fault)[id], name)
  {
    if HasSource(videos, id) && fault.NoFault? {
      ApplyRungsFlag(Started(videos[id]), Ladder, outs, name);
    }
  }

  /** An exception outside the per-rung handler leaves the record as it was before
      the run except that `is_processing` is cleared when the recovery save works:
      flags set in memory by this run are lost and `processing_complete` is untouched. */
  lemma OuterFaultResetsOnlyProcessing(videos: map<nat, VideoRow>, id: nat, outs: seq<Outcome>, point: FaultPoint)
    requires |outs| == |Ladder| && HasSource(videos, id)
    ensures TranscodeVideos(videos, id, outs, Fault(point, false)) == videos[id := videos[id].(isProcessing := false)]
    ensures TranscodeVideos(videos, id, outs, Fault(point, true)) ==
            if point == FirstSave then videos else videos[id := videos[id].(isProcessing := true)]
  {
    if point == FirstSave {
      assert videos[id := videos[id]] == videos;
    }
  }

  /** Without a record or without a source file, neither task changes or saves anything. */
  lemma NoSourceNoChange(videos: map<nat, VideoRow>, root: string, id: nat, outs: seq<Outcome>, fault: JobFault,
                         outcome: Outcome, saveFails: bool)
    requires |outs| == |Ladder| && !HasSource(videos, id)
    ensures TranscodeVideos(videos, id, outs, fault) == videos
    ensures TranscodeEffects(videos, root, id, outs, fault) == []
    ensures ThumbnailVideos(videos, root, id, outcome, saveFails) == videos
    ensures ThumbnailEffects(videos, root, id, outcome, saveFails) == []
  {
  }

  /** The ladder makes three encoder runs, 480p then 720p then 1080p, whatever their outcomes. */
  lemma LadderEffects(input: string, root: string, id: nat, outs: seq<Outcome>)
    requires |outs| == |Ladder|
    ensures RungEffects(input, root, id, Ladder, outs) ==
            [RungEffect(input, root, id, Ladder[0], outs[0]),
             RungEffect(input, root, id, Ladder[1], outs[1]),
             RungEffect(input, root, id, Ladder[2], outs[2])]
  {
    ThreeRungEffects(input, root, id, Ladder, outs);
  }

  /** Any three-rung ladder makes its three encoder runs in order. */
  lemma ThreeRungEffects(input: string, root: string, id: nat, rungs: seq<Rendition>, outs: seq<Outcome>)
    requires |rungs| == 3 && |outs| == 3
    ensures RungEffects(input, root, id, rungs, outs) ==
            [RungEffect(input, root, id, rungs[0], outs[0]),
             RungEffect(input, root, id, rungs[1], outs[1]),
             RungEffect(input, root, id, rungs[2], outs[2])]
  {
    var l1, l2, o1, o2 := rungs[..1], rungs[..2], outs[..1], outs[..2];
    assert rungs[..|rungs| - 1] == l2 && l2[..1] == l1 && l1[..0] == [];
    assert outs[..|outs| - 1] == o2 && o2[..1] == o1 && o1[..0] == [];
    assert RungEffects(input, root, id, l1, o1) == [RungEffect(input, root, id, rungs[0], outs[0])];
    assert RungEffects(input, root, id, l2, o2) ==
           RungEffects(input, root, id, l1, o1) + [RungEffect(input, root, id, rungs[1], outs[1])];
  }

  /** A run that gets past its setup saves the record with `is_processing` set, then
      runs the encoder for 480p, 720p and 1080p in that order whatever their
      outcomes, then makes the final save (or the recovery save when that raises). */
  lemma TranscodeTrace(videos: map<nat, VideoRow>, root: string, id: nat, outs: seq<Outcome>, fault: JobFault)
    requires |outs| == |Ladder| && HasSource(videos, id)
    requires fault.NoFault? || fault.point == FinalSave
    ensures var row, input := videos[id], InputPath(root, videos[id].videoFile);
            TranscodeEffects(videos, root, id, outs, fault) ==
              [Saved(id, row.(isProcessing := true)),
               RungEffect(input, root, id, Ladder[0], outs[0]),
               RungEffect(input, root, id, Ladder[1], outs[1]),
               RungEffect(input, root, id, Ladder[2], outs[2])]
              + if fault.NoFault? then [Saved(id, Finished(row.(isProcessing := true), id, outs))]
                else Recovery(id, row.(isProcessing := true), fault.recoveryFails)
  {
    var row := videos[id];
    var started := Started(row);
    var input := InputPath(root, row.videoFile);
    var tail := if fault.NoFault? then [Saved(id, Finished(started, id, outs))] else Recovery(id, started, fault.recoveryFails);
    assert TranscodeEffects(videos, root, id, outs, fault) == [Saved(id, started)] + AfterStartEffects(started, root, id, outs, fault);
    AfterStartLadder(started, root, id, outs, fault);
    LadderEffects(input, root, id, outs);
    ConsThree(Saved(id, started), RungEffects(input, root, id, Ladder, outs),
              RungEffect(input, root, id, Ladder[0], outs[0]),
              RungEffect(input, root, id, Ladder[1], outs[1]),
              RungEffect(input, root, id, Ladder[2], outs[2]), tail);
  }

  /** Past its setup, a run's effects are the ladder's encoder runs, then the final or recovery save. */
  lemma AfterStartLadder(started: VideoRow, root: string, id: nat, outs: seq<Outcome>, fault: JobFault)
    requires |outs| == |Ladder|
    requires fault.NoFault? || fault.point == FinalSave
    ensures AfterStartEffects(started, root, id, outs, fault)
         == RungEffects(InputPath(root, started.videoFile), root, id, Ladder, outs)
            + if fault.NoFault? then [Saved(id, Finished(started, id, outs))] else Recovery(id, started, fault.recoveryFails)
  {
  }

  lemma ConsThree<T>(a: T, e: seq<T>, x: T, y: T, z: T, tail: seq<T>)
    requires e == [x, y, z]
    ensures [a] + (e + tail) == [a, x, y, z] + tail
  {
  }

  /** An outer exception before the ladder means no encoder run at all. */
  lemma NoEncodingBeforeStart(videos: map<nat, VideoRow>, root: string, id: nat, outs: seq<Outcome>, fault: JobFault)
    requires |outs| == |Ladder| && HasSource(videos, id)
    requires fault.Fault? && fault.point != FinalSave
    ensures forall e :: e in TranscodeEffects(videos, root, id, outs, fault) ==> e.Saved?
  {
  }

  // ---------------------------------------------------------------------------
  // The thumbnail task
  // ---------------------------------------------------------------------------

  /** Whether a thumbnail run stores its result: the record has a source, the
      encoder exited with 0 and the save went through. */
  predicate ThumbnailStored(videos: map<nat, VideoRow>, id: nat, outcome: Outcome, saveFails: bool) {
    HasSource(videos, id) && outcome == Exited(0) && !saveFails
  }

  /** The table after `generate_thumbnail(id)`. */
  function ThumbnailVideos(videos: map<nat, VideoRow>, root: string, id: nat, outcome: Outcome, saveFails: bool): (r: map<nat, VideoRow>)
    ensures r.Keys == videos.Keys
    ensures forall other :: other in videos && other != id ==> r[other] == videos[other]
    ensures id in videos ==> r[id] == videos[id].(thumbnailImage := r[id].thumbnailImage)
  {
    if ThumbnailStored(videos, id, outcome, saveFails)
    then videos[id := videos[id].(thumbnailImage := ThumbnailRelPath(id))]
    else videos
  }

  /** The effects of `generate_thumbnail(id)`, in order. */
  function ThumbnailEffects(videos: map<nat, VideoRow>, root: string, id: nat, outcome: Outcome, saveFails: bool): seq<Effect> {
    if !HasSource(videos, id) then []
    else
      [Encoded(ThumbnailCommand(InputPath(root, videos[id].videoFile), ThumbnailPath(root, id)), outcome)]
        + if ThumbnailStored(videos, id, outcome, saveFails)
          then [Saved(id, videos[id].(thumbnailImage := ThumbnailRelPath(id)))]
          else []
  }

  /** `generate_thumbnail(video_id)`. `outcome` is how the encoder run ends, `saveFails` whether `video.save()` raises. */
  method GenerateThumbnail(b: Backend, root: string, id: nat, outcome: Outcome, saveFails: bool)
    modifies b
    ensures b.videos == ThumbnailVideos(old(b.videos), root, id, outcome, saveFails)
    ensures b.effects == old(b.effects) + ThumbnailEffects(old(b.videos), root, id, outcome, saveFails)
  {
    ghost var videos0, effects0 := b.videos, b.effects;
    var video := b.Get(id);
    if video == null || video.videoFile == "" {
      return;
    }
    var input := InputPath(root, video.videoFile);
    var thumbnailPath := ThumbnailPath(root, id);
    ghost var encoded := Encoded(ThumbnailCommand(input, thumbnailPath), outcome);
    b.RunEncoder(ThumbnailCommand(input, thumbnailPath), outcome);
    if outcome == Exited(0) {
      StoreThumbnail(b, video, root, saveFails);
      AppendAssoc(effects0, [encoded], if saveFails then [] else [Saved(id, videos0[id].(thumbnailImage := ThumbnailRelPath(id)))]);
    } else {
      assert effects0 + [encoded] == effects0 + ([encoded] + []);
    }
  }

  /** The success branch of `generate_thumbnail`: the name of the written file
      relative to the media root goes into `thumbnail_image`, and `video.save()`
      writes the row unless it raises. */
  method StoreThumbnail(b: Backend, video: Video, root: string, saveFails: bool)
    requires video.id in b.videos && video.Row() == b.videos[video.id]
    modifies b, video
    ensures var stored := old(b.videos)[video.id].(thumbnailImage := ThumbnailRelPath(video.id));
            && b.videos == (if saveFails then old(b.videos) else old(b.videos)[video.id := stored])
            && b.effects == old(b.effects) + (if saveFails then [] else [Saved(video.id, stored)])
  {
    ThumbnailLayout(root, video.id);
    var relative := RelPath(ThumbnailPath(root, video.id), root);
    video.thumbnailImage := relative;
    if !saveFails {
      b.Save(video);
    }
  }

  // ---------------------------------------------------------------------------
  // Properties of the thumbnail task
  // ---------------------------------------------------------------------------

  /** The thumbnail task changes the table only when the encoder exited with 0, and
      then only `thumbnail_image` of the one record, which becomes
      `videos/thumbnails/video_<id>_thumb.jpg`. */
  lemma ThumbnailOnlyOnSuccess(videos: map<nat, VideoRow>, root: string, id: nat, outcome: Outcome, saveFails: bool)
    ensures outcome != Exited(0) ==> ThumbnailVideos(videos, root, id, outcome, saveFails) == videos
    ensures var after := ThumbnailVideos(videos, root, id, outcome, saveFails);
            after != videos ==>
              && outcome == Exited(0)
              && after == videos[id := videos[id].(thumbnailImage := "videos/thumbnails/video_" + NatStr(id) + "_thumb.jpg")]
  {
    assert ThumbnailRelPath(id) == "videos/thumbnails/video_" + NatStr(id) + "_thumb.jpg";
  }

  /** A run that stored its thumbnail, repeated, writes the same path and leaves the
      table as the first run left it, whatever the second encoder run does. */
  lemma ThumbnailIdempotent(videos: map<nat, VideoRow>, root: string, id: nat, outcome: Outcome, saveFails: bool)
    requires ThumbnailStored(videos, id, Exited(0), false)
    ensures var once := ThumbnailVideos(videos, root, id, Exited(0), false);
            ThumbnailVideos(once, root, id, outcome, saveFails) == once
  {
    var once := ThumbnailVideos(videos, root, id, Exited(0), false);
    if ThumbnailStored(once, id, outcome, saveFails) {
      assert once[id].(thumbnailImage := ThumbnailRelPath(id)) == once[id];
      assert once[id := once[id]] == once;
    }
  }

  /** The saved thumbnail name, joined onto the media root, is the file the encoder wrote. */
  lemma ThumbnailStoredPath(videos: map<nat, VideoRow>, root: string, id: nat)
    requires ThumbnailStored(videos, id, Exited(0), false)
    ensures var after := ThumbnailVideos(videos, root, id, Exited(0), false);
            var command := ThumbnailEffects(videos, root, id, Exited(0), false)[0].command;
            Join(root, [after[id].thumbnailImage]) == command[|command| - 2]
  {
    ThumbnailLayout(root, id);
  }
}
