/**
 * The video record the background tasks read and update, the in-memory model
 * instance they mutate, and the backend they act on: the video table plus the
 * ordered log of the external effects a task has had (saves and encoder runs).
 */
module Videos {

  /** The columns of one video row that the tasks and the streaming views use. */
  datatype VideoRow = VideoRow(
    videoFile: string,       // name of the uploaded source; "" when none is attached
    thumbnailImage: string,  // name of the thumbnail image; "" when none is set
    thumbnailUrl: string,    // "" stands for NULL as well as for the empty string
    hlsPath: string,         // "" stands for NULL as well as for the empty string
    isProcessing: bool,
    processingComplete: bool,
    has480p: bool,
    has720p: bool,
    has1080p: bool)

  /** How one run of the external encoder ended: with an exit code, or by raising. */
  datatype Outcome = Exited(code: int) | Raised

  /** An effect outside the worker's memory, in the order it happened. */
  datatype Effect =
    | Saved(id: nat, row: VideoRow)                   // `video.save()` wrote this row
    | Encoded(command: seq<string>, outcome: Outcome) // the encoder was run with this argument list

  /** The availability flag a rendition name selects (`has_480p` for "480p", ...); false for any other name. */
  function Flag(row: VideoRow, name: string): bool {
    if name == "480p" then row.has480p
    else if name == "720p" then row.has720p
    else if name == "1080p" then row.has1080p
    else false
  }

  /** The row with the flag of a rendition name set, as the `if/elif` chain of the transcode task does. */
  function SetFlag(row: VideoRow, name: string): (r: VideoRow)
    ensures Flag(r, name) == (Flag(row, name) || name in {"480p", "720p", "1080p"})
    ensures forall n :: n != name ==> Flag(r, n) == Flag(row, n)
    ensures r.(has480p := row.has480p, has720p := row.has720p, has1080p := row.has1080p) == row
  {
    if name == "480p" then row.(has480p := true)
    else if name == "720p" then row.(has720p := true)
    else if name == "1080p" then row.(has1080p := true)
    else row
  }

  /** A model instance loaded from the table (`Video.objects.get(id=...)`). */
  class Video {
    const id: nat
    var videoFile: string
    var thumbnailImage: string
    var thumbnailUrl: string
    var hlsPath: string
    var isProcessing: bool
    var processingComplete: bool
    var has480p: bool
    var has720p: bool
    var has1080p: bool

    /** The field values as a row. */
    function Row(): VideoRow
      reads this
    {
      VideoRow(videoFile, thumbnailImage, thumbnailUrl, hlsPath, isProcessing,
               processingComplete, has480p, has720p, has1080p)
    }

    constructor Load(id: nat, row: VideoRow)
      ensures this.id == id && Row() == row
    {
      this.id := id;
      videoFile := row.videoFile;
      thumbnailImage := row.thumbnailImage;
      thumbnailUrl := row.thumbnailUrl;
      hlsPath := row.hlsPath;
      isProcessing := row.isProcessing;
      processingComplete := row.processingComplete;
      has480p := row.has480p;
      has720p := row.has720p;
      has1080p := row.has1080p;
    }

    /** Sets the flag of one rendition name (`video.has_480p = True`, ...). */
    method MarkAvailable(name: string)
      modifies this
      ensures Row() == SetFlag(old(Row()), name)
    {
      if name == "480p" {
        has480p := true;
      } else if name == "720p" {
        has720p := true;
      } else if name == "1080p" {
        has1080p := true;
      }
    }
  }

  /** The video table and the log of effects the worker has had. */
  class Backend {
    var videos: map<nat, VideoRow>
    var effects: seq<Effect>

    constructor (videos: map<nat, VideoRow>)
      ensures this.videos == videos && effects == []
    {
      this.videos := videos;
      effects := [];
    }

    /** `Video.objects.get(id=id)`: a fresh instance, or null for DoesNotExist. */
    method Get(id: nat) returns (v: Video?)
      ensures v == null <==> id !in videos
      ensures v != null ==> fresh(v) && v.id == id && v.Row() == videos[id]
    {
      if id in videos {
        v := new Video.Load(id, videos[id]);
      } else {
        v := null;
      }
    }

    /** `video.save()`: writes every field of the instance to its row. */
    method Save(v: Video)
      modifies this
      ensures videos == old(videos)[v.id := v.Row()]
      ensures effects == old(effects) + [Saved(v.id, v.Row())]
    {
      videos := videos[v.id := v.Row()];
      effects := effects + [Saved(v.id, v.Row())];
    }

    /** `subprocess.run(command)`: the encoder's outcome is an input of the model. */
    method RunEncoder(command: seq<string>, outcome: Outcome)
      modifies this
      ensures videos == old(videos)
      ensures effects == old(effects) + [Encoded(command, outcome)]
    {
      effects := effects + [Encoded(command, outcome)];
    }
  }
}
