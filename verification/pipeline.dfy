/** The three Streamlit modes of the app as one pure router: a source is
    turned into the plan of file-system and tool steps the branch performs,
    and the plan is executed against a map of named files. Whisper, ffmpeg,
    yt-dlp and gdown are the opaque `Tools`. */
module Pipeline {
  import opened Wrappers
  import opened PyStrings
  import Drive

  type Bytes = seq<bv8>

  /** The working directory: file name to contents. */
  type Files = map<string, Bytes>

  /** The fixed names the program writes. */
  const TempFile := "temp_file"
  const TempAudio := "temp_audio.mp3"
  const YouTubeAudio := "youtube_audio.mp3"

  /** What the user hands over, one per mode: an uploaded file with its
      declared MIME type, a YouTube link, or a Google Drive link. */
  datatype Source =
    | Upload(mime: string, data: Bytes)
    | YouTube(url: string)
    | DriveLink(url: string)

  /** The external capabilities, each with `None` for "raises" (for
      ffmpeg, whose exit status is ignored: "left no output file"). */
  datatype Tools = Tools(
    ytDlp: string -> Option<Bytes>,    // best audio of a video page, post-processed to mp3
    gdown: string -> Option<Bytes>,    // raw file behind a download URL
    ffmpeg: Bytes -> Option<Bytes>,    // audio file ffmpeg writes from a media file, if any
    whisper: Bytes -> Option<string>)  // transcript of a media file

  datatype Step =
    | Write(path: string, data: Bytes)            // write the upload's bytes to a file
    | FetchYouTube(url: string, path: string)     // yt-dlp download into a file
    | FetchDrive(url: string, path: string)       // gdown download into a file
    | ExtractAudio(input: string, output: string) // ffmpeg run through the shell
    | Transcribe(path: string)                    // Whisper on a file; its text becomes the transcript
    | Remove(path: string)                        // delete a file; raises if it is missing

  /** `Idle`: the branch is not entered; `Rejected`: it raises before any
      step; `Steps`: the steps it performs in order. */
  datatype Plan = Idle | Rejected | Steps(steps: seq<Step>)

  /** The state after a step: the files and the current `transcription`. */
  datatype State = State(files: Files, text: string)

  /** How one press of the start button ends, with the files left behind. */
  datatype Outcome =
    | Untouched(files: Files)
    | Done(files: Files, text: string)
    | Failed(files: Files)

  /** `transcribe_audio(path)`. */
  function TranscribeAudio(path: string): seq<Step>
  {
    [Transcribe(path)]
  }

  /** `transcribe_video(path)`: extract to the fixed audio file, transcribe
      it, delete it. */
  function TranscribeVideo(path: string): seq<Step>
  {
    [ExtractAudio(path, TempAudio), Transcribe(TempAudio), Remove(TempAudio)]
  }

  /** `download_youtube_video(url)`, which always hands back the fixed name. */
  function DownloadYouTube(url: string): seq<Step>
  {
    [FetchYouTube(url, YouTubeAudio)]
  }

  /** True when the declared MIME type routes an upload straight to Whisper. */
  function IsAudioMime(mime: string): (b: bool)
    ensures b <==> Contains(mime, "audio")
  {
    In("audio", mime)
  }

  /** The plan each mode's branch performs for a source. */
  function PlanFor(src: Source): (p: Plan)
    ensures p.Idle? <==> !src.Upload? && src.url == ""
    ensures p.Rejected? <==> src.DriveLink? && src.url != "" && !Contains(src.url, Drive.Marker)
  {
    match src
    case Upload(mime, data) =>
      Steps([Write(TempFile, data)]
            + (if IsAudioMime(mime) then TranscribeAudio(TempFile) else TranscribeVideo(TempFile)))
    case YouTube(url) =>
      if url == "" then Idle
      else Steps(DownloadYouTube(url) + TranscribeAudio(YouTubeAudio))
    case DriveLink(url) =>
      if url == "" then Idle
      else
        match Drive.DownloadGoogleDriveFile(url)
        case None => Rejected
        case Some(d) => Steps([FetchDrive(d.url, d.output)] + TranscribeVideo(d.output))
  }

  /** One step's effect; `None` when the step raises. In the model, writing
      a file never fails and running ffmpeg never raises; only a removal
      deletes a file; only a transcription changes the transcript. */
  function Apply(step: Step, st: State, tools: Tools): (r: Option<State>)
    ensures r.None? ==> step.FetchYouTube? || step.FetchDrive? || step.Transcribe? || step.Remove?
    ensures r.Some? ==> forall k :: k in st.files && step != Remove(k) ==> k in r.value.files
    ensures r.Some? && !step.Transcribe? ==> r.value.text == st.text
  {
    match step
    case Write(p, data) => Some(State(st.files[p := data], st.text))
    case FetchYouTube(u, p) =>
      (match tools.ytDlp(u)
       case None => None
       case Some(a) => Some(State(st.files[p := a], st.text)))
    case FetchDrive(u, p) =>
      (match tools.gdown(u)
       case None => None
       case Some(a) => Some(State(st.files[p := a], st.text)))
    case ExtractAudio(i, o) =>
      // ffmpeg runs without -y, so an existing output is never overwritten, and
      // the exit status of the shell call is ignored: a failed extraction raises nothing
      if o !in st.files && i in st.files && tools.ffmpeg(st.files[i]).Some? then
        Some(State(st.files[o := tools.ffmpeg(st.files[i]).value], st.text))
      else
        Some(st)
    case Transcribe(p) =>
      if p in st.files && tools.whisper(st.files[p]).Some? then
        Some(State(st.files, tools.whisper(st.files[p]).value))
      else
        None
    case Remove(p) =>
      if p in st.files then Some(State(st.files - {p}, st.text)) else None
  }

  /** Runs the steps in order; the first step that raises ends the run with
      the files as they are at that point. */
  function Exec(steps: seq<Step>, st: State, tools: Tools): (out: Outcome)
    ensures !out.Untouched?
    decreases |steps|
  {
    if |steps| == 0 then Done(st.files, st.text)
    else
      match Apply(steps[0], st, tools)
      case None => Failed(st.files)
      case Some(next) => Exec(steps[1..], next, tools)
  }

  /** One press of the start button: the transcription starts out empty.
      An empty link leaves everything as it was, and a Drive link without
      `/d/` fails before touching any file. */
  function Run(src: Source, files: Files, tools: Tools): (out: Outcome)
    ensures out.Untouched? <==> !src.Upload? && src.url == ""
    ensures out.Untouched? ==> out.files == files
    ensures src.DriveLink? && src.url != "" && !Contains(src.url, Drive.Marker) ==> out == Failed(files)
  {
    match PlanFor(src)
    case Idle => Untouched(files)
    case Rejected => Failed(files)
    case Steps(steps) => Exec(steps, State(files, ""), tools)
  }
}
