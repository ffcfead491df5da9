# Transcript: source routing and temporary files, in Dafny

This project models the pure core of a small Streamlit app (`app.py`). The app turns
speech into text from three kinds of source: an uploaded audio or video file, a
YouTube link, or a Google Drive share link. The model covers three things:

- how a Drive share link is cut into a file id, and how the download URL and the
  output path are built from it (`download_google_drive_file`);
- how each mode is routed (`"audio" in file_type` for uploads; YouTube always straight
  to Whisper; Drive always through `transcribe_video`), as a plan of steps;
- what those steps do to the working directory. The directory is a map from file name to
  contents, and every name the app writes is fixed: `temp_file`, `temp_audio.mp3`,
  `youtube_audio.mp3`, `google_drive_file.mp4`.

Whisper, ffmpeg, yt-dlp and gdown are opaque. They are the fields of a `Tools` value, each
a total function whose `None` means "raised". For ffmpeg, whose exit status is ignored,
`None` means "ffmpeg left no output file". Every
lemma holds for every choice of tools.

Modules:

- `Wrappers` (`wrappers.dfy`): `Option`.
- `PyStrings` (`pystrings.dfy`): Python's `sub in s` and `s.split(sep)`, with `Find` as
  the leftmost-occurrence search under both. `Join` is the inverse of `Split` and states
  what a split means.
- `Drive` (`drive.dfy`): the id parse, the download URL and path, and the characterisation
  and round-trip lemmas.
- `Pipeline` (`pipeline.dfy`): `Source`, `Step`, `Plan`, `Outcome`, the router `PlanFor`,
  the step semantics `Apply`/`Exec`, and `Run`, which models one press of the start button.
- `Routing` (`routing.dfy`): which sources reach Whisper directly and which go through
  audio extraction first.
- `Lifecycle` (`lifecycle.dfy`): the effect of `transcribe_video`, and the fact that only
  `temp_audio.mp3` is ever deleted.
- `Outcomes` (`outcomes.dfy`): the outcome of each mode, the files left after a success,
  and the consequences of the missing cleanup and the ignored ffmpeg exit status.

Behaviour the model keeps from the code, where a cleaner design would differ:

- Every run writes to the same fixed names, so repeated runs collide on those names.
- Cleanup happens only on the success path of `transcribe_video`. Nothing removes the
  upload copy or the downloads.
- `os.system`'s exit status is ignored, and ffmpeg runs without `-y`. An existing
  `temp_audio.mp3` is therefore never overwritten, and a failed extraction raises
  nothing. Whisper reads whatever `temp_audio.mp3` is on disk.
- Errors carry no types: a run ends `Done`, `Failed` or `Untouched`. `Untouched` means
  the branch was not entered because the URL was empty.

## Model

| member | source | states |
|---|---|---|
| PyStrings.Find | app.py:43 | The search under `in` and `split`: it returns the leftmost index at which the substring occurs, and nothing exactly when it does not occur. |
| PyStrings.Split | app.py:43 | `str.split` with a non-empty separator. The result is the leftmost split: each piece but the last ends at the leftmost separator after the previous cut, and the last piece holds no separator. The pieces re-join to the input, and there is exactly one piece iff the separator does not occur. |
| PyStrings.LeftmostSplitUnique | app.py:43 | The leftmost-split property determines the piece list uniquely, so the contract of `Split` pins its whole result. |
| PyStrings.SplitOverlappingSeparator | app.py:43 | On the self-overlapping separator `/d/`, `"x/d/a/d/d/b"` splits into `["x", "a", "d/b"]`, as in Python. |
| PyStrings.In | app.py:112 | Python's `sub in s` is true exactly when `sub` occurs somewhere in `s`. |
| Drive.DriveId | app.py:43 | The id is absent (the `IndexError` of `[1]`) exactly when the link has no `/d/`. When present, it contains no `/`. |
| Drive.DriveIdIsSegmentAfterMarker | app.py:43 | If the first `/d/` is at `i`, the id is the text from `i + 3` up to the next `/` or the end of the link. A link ending in its first `/d/` therefore gives the empty id. |
| Drive.DriveIdOfShareLink | app.py:43 | Round trip. In `prefix + "/d/" + id + suffix`, where the prefix holds no earlier `/d/`, the id is slash-free and the suffix is empty or starts with `/`, the parsed id is exactly `id`. |
| Drive.LinkEndingInMarkerGivesEmptyId | app.py:43-45 | A link whose first `/d/` is at its very end parses to the empty id rather than failing, and the download is then requested from the bare endpoint `https://drive.google.com/uc?id=`. |
| Drive.DownloadGoogleDriveFile | app.py:42-46 | No download is requested exactly when the link has no `/d/`. Otherwise the output path is always `google_drive_file.mp4`, and stripping `https://drive.google.com/uc?id=` from the download URL gives back the parsed id. |
| Pipeline.IsAudioMime | app.py:112 | An upload goes to Whisper directly exactly when its MIME string contains `audio`. |
| Pipeline.TranscribeAudio | app.py:21-23 | No contract. It is the single Whisper step; its effect is stated by `Outcomes.UploadAudioRun` and `Outcomes.YouTubeRun`. |
| Pipeline.TranscribeVideo | app.py:25-30 | No contract. It is the extract, transcribe and remove steps; their effect is stated by `Lifecycle.VideoStage`. |
| Pipeline.DownloadYouTube | app.py:32-40 | No contract. It is the one yt-dlp step into the fixed `youtube_audio.mp3`; its effect is stated by `Outcomes.YouTubeRun`. |
| Pipeline.PlanFor | app.py:102-141 | No step runs exactly when a YouTube or Drive URL is empty. A run is rejected before any step exactly when a non-empty Drive link has no `/d/`. |
| Pipeline.Apply | app.py:21-46 | One step. The model's write step never fails, and running ffmpeg never raises because the shell call's exit status is ignored. Only a removal deletes a file, and only a transcription changes the transcript. |
| Pipeline.Exec | app.py:102-141 | Steps run in order and stop at the first one that raises. The run ends `Done` or `Failed`, never `Untouched`. Its composition and what it keeps are stated by `Lifecycle.ExecAppend` and `Lifecycle.ExecKeeps`. |
| Pipeline.Run | app.py:102-141 | One press of the start button, up to the end of the transcription branch; the save step that follows is not modelled. It is `Untouched`, with the files unchanged, exactly when a YouTube or Drive URL is empty. A non-empty Drive link without `/d/` gives `Failed` with the files unchanged. |
| Routing.UploadRouting | app.py:108-113 | An upload is transcribed directly from `temp_file` iff its MIME string contains `audio`. It goes through extraction into `temp_audio.mp3` before transcription iff it does not. |
| Routing.YouTubeRouting | app.py:117-124 | A YouTube link is fetched into `youtube_audio.mp3`, and Whisper reads that file with no extraction step. |
| Routing.DriveRouting | app.py:130-137 | A Drive link is rejected iff it has no id. Otherwise the first step downloads from the id's URL into `google_drive_file.mp4`, and audio is always extracted before transcription. |
| Lifecycle.ExecAppend | app.py:102-141 | Running two step lists in turn is running their concatenation, and a failure in the first skips the second. |
| Lifecycle.ExecKeeps | app.py:25-46 | A file that no step removes still exists when the run ends, however it ends. |
| Lifecycle.AudioAfterExtraction | app.py:27-28 | No contract. It gives the bytes Whisper reads: a pre-existing `temp_audio.mp3` if there is one, since ffmpeg never overwrites it, else ffmpeg's output, else nothing. Stated by `Lifecycle.VideoStage`. |
| Lifecycle.VideoStage | app.py:25-30 | `transcribe_video` succeeds exactly when Whisper accepts the audio it reads: a stale `temp_audio.mp3` if one exists, the freshly extracted audio otherwise. On success it returns that transcript and its files are the input's minus `temp_audio.mp3` only. If Whisper raises, `temp_audio.mp3` stays. If there is no audio, nothing changes. |
| Lifecycle.OnlyTempAudioIsRemoved | app.py:25-46 | Whatever the source and the tools, every file other than `temp_audio.mp3` that existed before a run still exists after it. |
| Outcomes.UploadAudioRun | app.py:108-113 | An audio upload succeeds exactly when Whisper accepts the uploaded bytes. The text is Whisper's output on those bytes, and `temp_file` holds the upload afterwards. |
| Outcomes.UploadVideoRun | app.py:108-113 | A non-audio upload succeeds exactly when Whisper accepts the audio it reads, which is a stale `temp_audio.mp3` if one exists. On success `temp_file` stays and `temp_audio.mp3` is gone. If Whisper raises, both stay. If there is no audio, the run fails with only `temp_file` written. |
| Outcomes.YouTubeRun | app.py:117-128 | A YouTube run succeeds exactly when yt-dlp and Whisper both succeed. The text is Whisper's output on the downloaded audio. `youtube_audio.mp3` remains whether Whisper succeeds or raises, and a failed download changes nothing. |
| Outcomes.DriveRun | app.py:130-141 | A Drive run with an id fails with the files unchanged if the download fails. Otherwise it behaves as `transcribe_video` on `google_drive_file.mp4`, on all four endings: success, Whisper raising, or no audio to read. The video remains afterwards in every case. |
| Outcomes.MalformedDriveLinkNeverFetches | app.py:43-45 | A non-empty Drive link without `/d/` fails with the files unchanged, whatever the tools would do, so no tool is reached. |
| Outcomes.ArtifactsAfterSuccess | app.py:102-141 | The file names at the end of a successful transcription branch, per mode, before the save step. Audio upload: old names plus `temp_file`. Video upload: plus `temp_file`, minus `temp_audio.mp3`. YouTube: plus `youtube_audio.mp3`. Drive: plus `google_drive_file.mp4`, minus `temp_audio.mp3`. |
| Outcomes.StaleAudioIsTranscribed | app.py:27-28 | When a video upload finds an earlier `temp_audio.mp3` on disk, the run reports Whisper's transcript of that stale file, whatever ffmpeg would extract from the new upload. |
| Outcomes.WhisperFailureLeavesTempAudio | app.py:26-29 | With no `temp_audio.mp3` on disk, if extraction succeeds but Whisper raises, the run fails and leaves `temp_audio.mp3`, holding the extracted audio, next to `temp_file`. |
| Outcomes.RepeatedUploadCollides | app.py:109-113 | After a successful upload, pressing the button again reuses the same names, whatever the tools do the second time. A second success leaves exactly the files the first left. A second failure adds at most `temp_audio.mp3`. |

## Left out

- Loading the Whisper model and running inference (app.py:18-23). Inference is the opaque `Tools.whisper`, a function of the bytes of the file it reads.
- The Streamlit page: layout, CSS, the sidebar radio, the file-type filter of the uploader and the reset button (app.py:60-106). A `Source` value stands for the chosen mode plus a press of the start button.
- `save_as_txt` and `save_as_word` (app.py:48-57, 144-162). They write the transcript to `transcription.txt` and `transcription.docx`; this is file I/O on an opaque string. The same press runs them whenever the transcript is non-empty, so the program then leaves these two names as well. The model's directory omits them: every file set it states is the one at the end of the transcription branch (app.py:102-141).
- Pipeline.Apply: the write step never fails. Writing `temp_file` (app.py:109-110) can raise `OSError`, for example when the disk is full or permission is denied, and the upload branch does not catch it. The model leaves out storage failure and the partial file it might leave.
- The error messages shown by `st.error` (app.py:127-128, 140-141). A failure is one `Failed` outcome for the whole run, together with the files at that point. An upload failure is not caught by the app (app.py:107-113) and is modelled the same way.
- yt-dlp internals: format choice, the intermediate download, and the mp3 post-processing at 192 kbit/s (app.py:33-39). The download is one step that writes `youtube_audio.mp3` or raises.
- gdown's failure mode (app.py:45). Some gdown versions print an error and return `None` instead of raising. The model assumes it raises, and it leaves out partially written files.
- ffmpeg details (app.py:27). The command line is not quoted; the model assumes the fixed names need no quoting.
- The ffmpeg overwrite prompt (app.py:27). Without `-y`, ffmpeg asks on stdin before overwriting an existing `temp_audio.mp3`. The model takes the non-interactive case: ffmpeg declines, exits non-zero and leaves the file. When stdin is a terminal, ffmpeg blocks waiting for an answer instead; the model has no blocking state.
- Whisper's sampling (app.py:22). Whisper falls back to temperature sampling, so two calls on the same bytes may give different text. `Tools.whisper` is a function of the bytes, which is exact for one run, where Whisper is called once. The lemma that spans two runs, `Outcomes.RepeatedUploadCollides`, takes a separate `Tools` value for the second run and claims nothing about its text.
- Concurrent sessions. Two browser sessions share the same fixed names; the model covers one run at a time.
- Invocation-unique paths, guaranteed cleanup, a typed error taxonomy and a lock around inference. A cleaner design would have them, but the code has none of them, so the model does not either.
