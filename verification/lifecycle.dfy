/** What a run leaves in the working directory and which bytes Whisper
    reads. Every name the program writes is fixed, only `temp_audio.mp3` is
    ever deleted, and it is deleted only on the success path. */
module Lifecycle {
  import opened Wrappers
  import opened Pipeline
  import Drive

  /** Running two step lists one after the other is running their
      concatenation; a failure in the first skips the second. */
  lemma {:induction false} ExecAppend(a: seq<Step>, b: seq<Step>, st: State, tools: Tools)
    ensures Exec(a + b, st, tools) ==
      match Exec(a, st, tools)
      case Done(f, t) => Exec(b, State(f, t), tools)
      case other => other
  {
    if |a| == 0 {
      assert a + b == b;
    } else {
      assert (a + b)[0] == a[0];
      assert (a + b)[1..] == a[1..] + b;
      match Apply(a[0], st, tools)
      case None =>
      case Some(next) => ExecAppend(a[1..], b, next, tools);
    }
  }

  /** A file that no step removes is still there when the run ends, however
      it ends. */
  lemma {:induction false} ExecKeeps(steps: seq<Step>, st: State, tools: Tools, k: string)
    requires k in st.files
    requires forall i :: 0 <= i < |steps| ==> steps[i] != Remove(k)
    ensures k in Exec(steps, st, tools).files
    decreases |steps|
  {
    if |steps| > 0 {
      match Apply(steps[0], st, tools)
      case None =>
      case Some(next) =>
        assert k in next.files;
        ExecKeeps(steps[1..], next, tools, k);
    }
  }

  /** The bytes `temp_audio.mp3` holds when Whisper opens it. A file an
      earlier run left under that name wins: ffmpeg declines to overwrite it.
      Otherwise it is the audio extracted from `input`, and nothing when
      extraction failed (its exit status is ignored). */
  function AudioAfterExtraction(input: string, files: Files, tools: Tools): Option<Bytes>
  {
    if TempAudio in files then Some(files[TempAudio])
    else if input in files then tools.ffmpeg(files[input])
    else None
  }

  /** `transcribe_video`: it succeeds exactly when Whisper accepts the audio
      file (a stale one if it exists, else the freshly extracted one), then
      returns its transcript and removes that file and nothing else; when
      Whisper raises, the audio file stays behind. */
  lemma VideoStage(input: string, st: State, tools: Tools)
    ensures var out := Exec(TranscribeVideo(input), st, tools);
      var audio := AudioAfterExtraction(input, st.files, tools);
      && (out.Done? <==> audio.Some? && tools.whisper(audio.value).Some?)
      && (out.Done? ==> out.files == st.files - {TempAudio} && out.text == tools.whisper(audio.value).value)
      && (out.Failed? && audio.Some? ==> out.files == st.files[TempAudio := audio.value])
      && (audio.None? ==> out == Failed(st.files))
  {
    var s := TranscribeVideo(input);
    var audio := AudioAfterExtraction(input, st.files, tools);
    var st1 := Apply(s[0], st, tools).value;
    assert s[1..] == [Transcribe(TempAudio), Remove(TempAudio)];
    assert s[1..][1..] == [Remove(TempAudio)];
    if audio.Some? {
      assert st1.files == st.files[TempAudio := audio.value];
      if tools.whisper(audio.value).Some? {
        var t := tools.whisper(audio.value).value;
        var st2 := State(st1.files, t);
        assert Apply(s[1], st1, tools) == Some(st2);
        var st3 := State(st1.files - {TempAudio}, t);
        assert Apply(s[2], st2, tools) == Some(st3);
        assert Exec(s[1..][1..], st2, tools) == Exec([], st3, tools);
        assert st1.files - {TempAudio} == st.files - {TempAudio};
      }
    } else {
      assert st1 == st;
    }
  }

  /** No run ever deletes a file other than `temp_audio.mp3`: the uploaded
      copy and the downloads are never cleaned up. */
  lemma OnlyTempAudioIsRemoved(src: Source, files: Files, tools: Tools, k: string)
    requires k in files && k != TempAudio
    ensures k in Run(src, files, tools).files
  {
    match PlanFor(src)
    case Idle =>
    case Rejected =>
    case Steps(s) =>
      forall i | 0 <= i < |s|
        ensures s[i] != Remove(k)
      {
        match src
        case Upload(mime, data) =>
          if IsAudioMime(mime) {
            assert s == [Write(TempFile, data), Transcribe(TempFile)];
          } else {
            assert s == [Write(TempFile, data)] + TranscribeVideo(TempFile);
          }
        case YouTube(url) =>
          assert s == [FetchYouTube(url, YouTubeAudio), Transcribe(YouTubeAudio)];
        case DriveLink(url) =>
          var d := Drive.DownloadGoogleDriveFile(url).value;
          assert s == [FetchDrive(d.url, d.output)] + TranscribeVideo(d.output);
      }
      ExecKeeps(s, State(files, ""), tools, k);
  }
}
