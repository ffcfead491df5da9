/** Which way each source is routed: straight to Whisper, or through the
    audio-extraction step first. */
module Routing {
  import opened PyStrings
  import opened Pipeline
  import Drive

  /** Every transcription reads `path` and nothing is extracted: the file is
      handed to Whisper as it is. */
  ghost predicate TranscribesDirectly(steps: seq<Step>, path: string)
  {
    && (exists j :: 0 <= j < |steps| && steps[j] == Transcribe(path))
    && (forall j :: 0 <= j < |steps| ==> !steps[j].ExtractAudio?)
    && (forall j :: 0 <= j < |steps| && steps[j].Transcribe? ==> steps[j].path == path)
  }

  /** Every transcription reads the extracted audio file, and an earlier step
      extracted audio into it: no container reaches Whisper directly. */
  ghost predicate ExtractsBeforeTranscribing(steps: seq<Step>)
  {
    && (exists j :: 0 <= j < |steps| && steps[j].Transcribe?)
    && (forall j :: 0 <= j < |steps| && steps[j].Transcribe? ==>
          && steps[j].path == TempAudio
          && exists i :: 0 <= i < j && steps[i].ExtractAudio? && steps[i].output == TempAudio)
  }

  lemma TranscribeVideoExtracts(before: seq<Step>, path: string)
    requires forall j :: 0 <= j < |before| ==> !before[j].Transcribe?
    ensures ExtractsBeforeTranscribing(before + TranscribeVideo(path))
  {
    var s := before + TranscribeVideo(path);
    var n := |before|;
    assert s[n] == ExtractAudio(path, TempAudio);
    assert s[n + 1] == Transcribe(TempAudio);
    forall j | 0 <= j < |s| && s[j].Transcribe?
      ensures s[j].path == TempAudio
      ensures exists i :: 0 <= i < j && s[i].ExtractAudio? && s[i].output == TempAudio
    {
      assert j == n + 1;
    }
  }

  /** An upload goes straight to Whisper exactly when its declared MIME type
      contains `audio`, and through extraction exactly when it does not. */
  lemma UploadRouting(mime: string, data: Bytes)
    ensures PlanFor(Upload(mime, data)).Steps?
    ensures TranscribesDirectly(PlanFor(Upload(mime, data)).steps, TempFile) <==> Contains(mime, "audio")
    ensures ExtractsBeforeTranscribing(PlanFor(Upload(mime, data)).steps) <==> !Contains(mime, "audio")
  {
    var s := PlanFor(Upload(mime, data)).steps;
    if Contains(mime, "audio") {
      assert s == [Write(TempFile, data), Transcribe(TempFile)];
      assert s[1] == Transcribe(TempFile);
    } else {
      assert s == [Write(TempFile, data)] + TranscribeVideo(TempFile);
      TranscribeVideoExtracts([Write(TempFile, data)], TempFile);
      assert s[1].ExtractAudio?;
    }
  }

  /** A YouTube link is always transcribed from the fixed downloaded file,
      with no extraction step of the program's own. */
  lemma YouTubeRouting(url: string)
    requires url != ""
    ensures PlanFor(YouTube(url)).Steps?
    ensures TranscribesDirectly(PlanFor(YouTube(url)).steps, YouTubeAudio)
    ensures PlanFor(YouTube(url)).steps[0] == FetchYouTube(url, YouTubeAudio)
  {
    var s := PlanFor(YouTube(url)).steps;
    assert s == [FetchYouTube(url, YouTubeAudio), Transcribe(YouTubeAudio)];
    assert s[1] == Transcribe(YouTubeAudio);
  }

  /** A Drive link with an id is downloaded from the fixed endpoint into the
      fixed path, then always goes through extraction; one without `/d/`
      is rejected before any step. */
  lemma DriveRouting(url: string)
    requires url != ""
    ensures PlanFor(DriveLink(url)).Rejected? <==> Drive.DriveId(url).None?
    ensures PlanFor(DriveLink(url)).Steps? ==>
      var s := PlanFor(DriveLink(url)).steps;
      && s[0].FetchDrive?
      && Drive.IdOfDownloadUrl(s[0].url) == Drive.DriveId(url)
      && s[0].path == Drive.OutputPath
      && ExtractsBeforeTranscribing(s)
  {
    if PlanFor(DriveLink(url)).Steps? {
      var d := Drive.DownloadGoogleDriveFile(url).value;
      TranscribeVideoExtracts([FetchDrive(d.url, d.output)], d.output);
    }
  }
}
