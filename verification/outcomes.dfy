/** How one press of the start button ends, per mode: when it succeeds,
    what text it shows, and which fixed-name files it leaves behind. */
module Outcomes {
  import opened PyStrings
  import opened Pipeline
  import opened Lifecycle
  import Drive

  /** An audio upload is copied to `temp_file` and handed to Whisper as is;
      the copy stays. */
  lemma UploadAudioRun(mime: string, data: Bytes, files: Files, tools: Tools)
    requires Contains(mime, "audio")
    ensures var out := Run(Upload(mime, data), files, tools);
      var written := files[TempFile := data];
      && (out.Done? <==> tools.whisper(data).Some?)
      && (out.Done? ==> out == Done(written, tools.whisper(data).value))
      && (out.Failed? ==> out.files == written)
  {
    var s := PlanFor(Upload(mime, data)).steps;
    assert s == [Write(TempFile, data)] + TranscribeAudio(TempFile);
    ExecAppend([Write(TempFile, data)], TranscribeAudio(TempFile), State(files, ""), tools);
    var st1 := State(files[TempFile := data], "");
    assert Exec([Write(TempFile, data)], State(files, ""), tools) == Exec([], st1, tools);
    assert TranscribeAudio(TempFile)[1..] == [];
  }

  /** Any other upload is copied to `temp_file` and goes through
      `transcribe_video`: Whisper reads a `temp_audio.mp3` left by an earlier
      run if there is one, the extracted audio otherwise; on success the
      audio file is gone and the copy stays. */
  lemma UploadVideoRun(mime: string, data: Bytes, files: Files, tools: Tools)
    requires !Contains(mime, "audio")
    ensures var out := Run(Upload(mime, data), files, tools);
      var written := files[TempFile := data];
      var audio := AudioAfterExtraction(TempFile, written, tools);
      && (out.Done? <==> audio.Some? && tools.whisper(audio.value).Some?)
      && (out.Done? ==> out == Done(written - {TempAudio}, tools.whisper(audio.value).value))
      && (out.Failed? && audio.Some? ==> out.files == written[TempAudio := audio.value])
      && (audio.None? ==> out == Failed(written))
  {
    var s := PlanFor(Upload(mime, data)).steps;
    assert s == [Write(TempFile, data)] + TranscribeVideo(TempFile);
    ExecAppend([Write(TempFile, data)], TranscribeVideo(TempFile), State(files, ""), tools);
    var st1 := State(files[TempFile := data], "");
    assert Exec([Write(TempFile, data)], State(files, ""), tools) == Exec([], st1, tools);
    VideoStage(TempFile, st1, tools);
  }

  /** A YouTube link: yt-dlp writes `youtube_audio.mp3`, Whisper reads it,
      and the file stays. */
  lemma YouTubeRun(url: string, files: Files, tools: Tools)
    requires url != ""
    ensures var out := Run(YouTube(url), files, tools);
      var fetched := tools.ytDlp(url);
      && (out.Done? <==> fetched.Some? && tools.whisper(fetched.value).Some?)
      && (out.Done? ==> out == Done(files[YouTubeAudio := fetched.value], tools.whisper(fetched.value).value))
      && (fetched.None? ==> out == Failed(files))
      && (fetched.Some? && out.Failed? ==> out.files == files[YouTubeAudio := fetched.value])
  {
    var s := PlanFor(YouTube(url)).steps;
    assert s == DownloadYouTube(url) + TranscribeAudio(YouTubeAudio);
    ExecAppend(DownloadYouTube(url), TranscribeAudio(YouTubeAudio), State(files, ""), tools);
    assert DownloadYouTube(url)[1..] == [];
    assert TranscribeAudio(YouTubeAudio)[1..] == [];
  }

  /** A Drive link with an id: gdown writes `google_drive_file.mp4` from the
      download URL of that id, then `transcribe_video` runs on it; on success
      the video stays and the audio file is gone. */
  lemma DriveRun(url: string, files: Files, tools: Tools)
    requires url != "" && Contains(url, Drive.Marker)
    ensures var out := Run(DriveLink(url), files, tools);
      var fetched := tools.gdown(Drive.UcPrefix + Drive.DriveId(url).value);
      && (fetched.None? ==> out == Failed(files))
      && (fetched.Some? ==>
            var written := files[Drive.OutputPath := fetched.value];
            var audio := AudioAfterExtraction(Drive.OutputPath, written, tools);
            && (out.Done? <==> audio.Some? && tools.whisper(audio.value).Some?)
            && (out.Done? ==> out == Done(written - {TempAudio}, tools.whisper(audio.value).value))
            && (out.Failed? && audio.Some? ==> out.files == written[TempAudio := audio.value])
            && (audio.None? ==> out == Failed(written)))
  {
    var d := Drive.DownloadGoogleDriveFile(url).value;
    var fetch := [FetchDrive(d.url, d.output)];
    assert PlanFor(DriveLink(url)).steps == fetch + TranscribeVideo(d.output);
    ExecAppend(fetch, TranscribeVideo(d.output), State(files, ""), tools);
    assert fetch[1..] == [];
    var fetched := tools.gdown(Drive.UcPrefix + Drive.DriveId(url).value);
    if fetched.Some? {
      VideoStage(Drive.OutputPath, State(files[Drive.OutputPath := fetched.value], ""), tools);
    }
  }

  /** A Drive link without `/d/` fails before any tool is called: the outcome
      is the same whatever the tools would have done, and no file changes. */
  lemma MalformedDriveLinkNeverFetches(url: string, files: Files, tools: Tools, other: Tools)
    requires url != "" && !Contains(url, Drive.Marker)
    ensures Run(DriveLink(url), files, tools) == Failed(files)
    ensures Run(DriveLink(url), files, tools) == Run(DriveLink(url), files, other)
  {
  }

  /** After any successful run, the fixed-name input artifact of its mode is
      still on disk, and `temp_audio.mp3` is absent exactly on the routes
      that extracted audio. */
  lemma ArtifactsAfterSuccess(src: Source, files: Files, tools: Tools)
    requires Run(src, files, tools).Done?
    ensures var left := Run(src, files, tools).files.Keys;
      && (src.Upload? && Contains(src.mime, "audio") ==> left == files.Keys + {TempFile})
      && (src.Upload? && !Contains(src.mime, "audio") ==> left == files.Keys + {TempFile} - {TempAudio})
      && (src.YouTube? ==> left == files.Keys + {YouTubeAudio})
      && (src.DriveLink? ==> left == files.Keys + {Drive.OutputPath} - {TempAudio})
  {
    match src
    case Upload(mime, data) =>
      if Contains(mime, "audio") {
        UploadAudioRun(mime, data, files, tools);
      } else {
        UploadVideoRun(mime, data, files, tools);
      }
    case YouTube(url) =>
      YouTubeRun(url, files, tools);
    case DriveLink(url) =>
      DriveRun(url, files, tools);
  }

  /** A `temp_audio.mp3` left by an earlier run is what Whisper reads on a
      video upload, whatever ffmpeg would extract from the new file: ffmpeg
      declines to overwrite it and its exit status is ignored. The run
      reports that stale text as the transcript of the new upload. */
  lemma StaleAudioIsTranscribed(mime: string, data: Bytes, files: Files, tools: Tools)
    requires !Contains(mime, "audio")
    requires TempAudio in files
    ensures var out := Run(Upload(mime, data), files, tools);
      var stale := files[TempAudio];
      && (out.Done? <==> tools.whisper(stale).Some?)
      && (out.Done? ==> out == Done(files[TempFile := data] - {TempAudio}, tools.whisper(stale).value))
      && (out.Failed? ==> out.files == files[TempFile := data])
  {
    UploadVideoRun(mime, data, files, tools);
    assert files[TempFile := data][TempAudio := files[TempAudio]] == files[TempFile := data];
  }

  /** When Whisper raises on freshly extracted audio, nothing removes it:
      the next run starts with `temp_audio.mp3` already on disk. */
  lemma WhisperFailureLeavesTempAudio(mime: string, data: Bytes, files: Files, tools: Tools)
    requires !Contains(mime, "audio")
    requires TempAudio !in files
    requires tools.ffmpeg(data).Some? && tools.whisper(tools.ffmpeg(data).value).None?
    ensures Run(Upload(mime, data), files, tools)
         == Failed(files[TempFile := data][TempAudio := tools.ffmpeg(data).value])
  {
    UploadVideoRun(mime, data, files, tools);
  }

  /** Pressing the button again on the same upload reuses the same fixed
      names, whatever the tools do the second time: a successful second run
      leaves exactly the files the first one left, and a failed one adds at
      most `temp_audio.mp3`. Runs never get fresh names; they collide. */
  lemma RepeatedUploadCollides(mime: string, data: Bytes, files: Files, tools: Tools, later: Tools)
    requires Run(Upload(mime, data), files, tools).Done?
    ensures var first := Run(Upload(mime, data), files, tools);
      var second := Run(Upload(mime, data), first.files, later);
      && (second.Done? ==> second.files == first.files)
      && (second.Failed? ==> second.files.Keys <= first.files.Keys + {TempAudio})
  {
    var first := Run(Upload(mime, data), files, tools);
    if Contains(mime, "audio") {
      UploadAudioRun(mime, data, files, tools);
      UploadAudioRun(mime, data, first.files, later);
      assert first.files[TempFile := data] == first.files;
    } else {
      UploadVideoRun(mime, data, files, tools);
      UploadVideoRun(mime, data, first.files, later);
      var again := first.files[TempFile := data];
      assert again == first.files;
      assert again - {TempAudio} == first.files;
    }
  }
}
