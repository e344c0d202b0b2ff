/** The transcription stage (src/Audio-text.py): `transcribe_and_save`,
    which checks the credential, sends one audio file to the speech
    recognition service and writes the transcript only after it succeeds,
    and the script's entry point, which picks the first `.wav` file in `Data`. */
module Transcription {
  import opened Wrappers
  import opened Paths
  import opened Staging

  const AudioDir := "Data"
  const TextDir := "text-data"
  const AudioExt := ".wav"
  const TranscriptExt := ".txt"

  /** `os.path.join('text-data', f"{base_name}.txt")` with
      `base_name = os.path.splitext(os.path.basename(audio_path))[0]`. */
  function TranscriptPathFor(audioPath: string): string {
    Join(TextDir, Stem(Basename(audioPath)) + TranscriptExt)
  }

  /** What a call of `transcribe_and_save` leaves behind and returns (the
      written path, or the exception it raises). */
  datatype Call = Call(world: World, result: Result<string, Failure>)

  /** `transcribe_and_save` (lines 25-59). */
  function Transcribe(w: World, apiKey: Option<string>, audioPath: string, transcribe: string -> Reply): (c: Call)
    ensures c.result.Success? <==>
      KeyPresent(apiKey) && audioPath in w.files && transcribe(w.files[audioPath]).Answer?
    ensures c.result.Success? ==>
      c.result.value == TranscriptPathFor(audioPath) &&
      c.world.files == w.files[c.result.value := transcribe(w.files[audioPath]).text]
    ensures c.result.Failure? ==> c.world.files == w.files
    ensures !KeyPresent(apiKey) ==>
      c.result == Failure(MissingKey) && c.world.log == w.log + [Entry(Error, KeyName)]
    ensures KeyPresent(apiKey) && c.result.Failure? ==>
      c.world.log == w.log + [Entry(Info, audioPath), Entry(Error, audioPath)]
    ensures c.result.Success? ==>
      c.world.log == w.log + [Entry(Info, audioPath), Entry(Info, c.result.value)]
    ensures w.log <= c.world.log
  {
    if !KeyPresent(apiKey) then
      Call(World(w.files, w.log + [Entry(Error, KeyName)]), Failure(MissingKey))
    else
      if audioPath !in w.files then
        Call(World(w.files, w.log + [Entry(Info, audioPath), Entry(Error, audioPath)]), Failure(ReadError))
      else match transcribe(w.files[audioPath])
        case ServiceError =>
          Call(World(w.files, w.log + [Entry(Info, audioPath), Entry(Error, audioPath)]), Failure(RemoteError))
        case Answer(text) =>
          var textPath := TranscriptPathFor(audioPath);
          Call(World(w.files[textPath := text], w.log + [Entry(Info, audioPath), Entry(Info, textPath)]),
               Success(textPath))
  }

  /** `transcribe_and_save`, on the files and log of `ws`. */
  method TranscribeAndSave(ws: Workspace, apiKey: Option<string>, audioPath: string, transcribe: string -> Reply)
    returns (result: Result<string, Failure>)
    modifies ws
    ensures Call(ws.State(), result) == Transcribe(old(ws.State()), apiKey, audioPath, transcribe)
  {
    if !KeyPresent(apiKey) {
      ws.Record(Error, KeyName);
      return Failure(MissingKey);
    }
    ghost var log0 := ws.log;
    ws.Record(Info, audioPath);
    if audioPath !in ws.files {
      ws.Record(Error, audioPath);
      AppendedTwo(log0, Entry(Info, audioPath), Entry(Error, audioPath));
      return Failure(ReadError);
    }
    var reply := transcribe(ws.files[audioPath]);
    match reply {
      case ServiceError =>
        ws.Record(Error, audioPath);
        AppendedTwo(log0, Entry(Info, audioPath), Entry(Error, audioPath));
        return Failure(RemoteError);
      case Answer(transcriptText) =>
        var baseName := Stem(Basename(audioPath));
        var textPath := Join(TextDir, baseName + TranscriptExt);
        ws.Write(textPath, transcriptText);
        ws.Record(Info, textPath);
        AppendedTwo(log0, Entry(Info, audioPath), Entry(Info, textPath));
        return Success(textPath);
    }
  }

  /** The start-up log line (line 22) and the `__main__` block (lines
      62-75): no
      `.wav` entry means `sys.exit(1)`; otherwise the first one is
      transcribed, any exception is logged and swallowed, and the script
      ends with status 0. */
  function EntryPoint(w: World, apiKey: Option<string>, listing: seq<string>, transcribe: string -> Reply): Ended {
    var started := w.log + [Entry(Info, "")];
    var wavFiles := Matching(listing, AudioExt);
    if wavFiles == [] then Ended(World(w.files, started + [Entry(Error, AudioDir)]), 1)
    else Ended(Reported(Transcribe(World(w.files, started), apiKey, Join(AudioDir, wavFiles[0]), transcribe)), 0)
  }

  /** Lines 72-75: the outcome of the call is logged (the path on success,
      an error otherwise), then the closing line. */
  function Reported(c: Call): World {
    var outcome := if c.result.Success? then Entry(Info, c.result.value) else Entry(Error, "");
    World(c.world.files, c.world.log + [outcome, Entry(Info, "")])
  }

  method RunTranscription(ws: Workspace, apiKey: Option<string>, listing: seq<string>, transcribe: string -> Reply)
    returns (status: int)
    modifies ws
    ensures Ended(ws.State(), status) == EntryPoint(old(ws.State()), apiKey, listing, transcribe)
  {
    ws.Record(Info, "");
    var wavFiles := Matching(listing, AudioExt);
    if wavFiles == [] {
      ws.Record(Error, AudioDir);
      return 1;
    }
    var audioFile := Join(AudioDir, wavFiles[0]);
    var result := TranscribeAndSave(ws, apiKey, audioFile, transcribe);
    ReportOutcome(ws, result);
    return 0;
  }

  /** The `try`/`except` around the call and the closing log line. */
  method ReportOutcome(ws: Workspace, result: Result<string, Failure>)
    modifies ws
    ensures ws.State() == Reported(Call(old(ws.State()), result))
  {
    if result.Success? {
      ws.Record(Info, result.value);
    } else {
      ws.Record(Error, "");
    }
    ws.Record(Info, "");
  }

  // ---------------------------------------------------------------------------
  // Properties

  lemma AudioExtIsPlain()
    ensures IsPlainExtension(AudioExt)
  {
  }

  /** The transcript lies directly inside `text-data` and is named by the
      audio file's base identifier and `.txt`. */
  lemma TranscriptPathShape(audioPath: string)
    ensures TranscriptPathFor(audioPath) == TextDir + [Sep] + Stem(Basename(audioPath)) + TranscriptExt
  {
    assert TextDir[|TextDir| - 1] != Sep && TranscriptExt[0] != Sep;
    JoinStem(TextDir, Basename(audioPath), TranscriptExt);
  }

  /** The directory part of the audio path never reaches the transcript's
      name: `Data/talk.wav` and `talk.wav` give the same transcript path. */
  lemma DirectoryDiscarded(dir: string, name: string)
    ensures TranscriptPathFor(dir + [Sep] + name) == TranscriptPathFor(name)
  {
    BasenameDropsDirectory(dir, name);
  }

  /** The worked case `Data/talk.wav` to `text-data/talk.txt`. */
  lemma TalkExample()
    ensures TranscriptPathFor(AudioDir + [Sep] + "talk.wav") == TextDir + [Sep] + "talk" + TranscriptExt
  {
    DirectoryDiscarded(AudioDir, "talk.wav");
    TalkSplits();
    TranscriptPathShape("talk.wav");
  }

  /** Without a usable key the call raises `RuntimeError` before the service
      is consulted: the outcome is the same for any service, any file. */
  lemma KeyCheckedFirst(w: World, apiKey: Option<string>, audioPath: string,
                        transcribe: string -> Reply, other: string -> Reply)
    requires !KeyPresent(apiKey)
    ensures Transcribe(w, apiKey, audioPath, transcribe) == Transcribe(w, apiKey, audioPath, other)
    ensures Transcribe(w, apiKey, audioPath, transcribe).world.files == w.files
  {
  }

  /** Full overwrite: after two successful runs on the same audio file the
      transcript holds the second answer, whatever the first run wrote; and
      when the audio file is not the transcript itself, the second answer is
      the one for the original audio content. */
  lemma RerunOverwrites(w: World, apiKey: Option<string>, audioPath: string,
                        first: string -> Reply, second: string -> Reply)
    requires Transcribe(w, apiKey, audioPath, first).result.Success?
    requires Transcribe(Transcribe(w, apiKey, audioPath, first).world, apiKey, audioPath, second).result.Success?
    ensures var c1 := Transcribe(w, apiKey, audioPath, first);
      var c2 := Transcribe(c1.world, apiKey, audioPath, second);
      var out := TranscriptPathFor(audioPath);
      c2.result == Success(out) &&
      c2.world.files == c1.world.files[out := second(c1.world.files[audioPath]).text] &&
      (audioPath != out ==> c2.world.files == w.files[out := second(w.files[audioPath]).text])
  {
  }

  /** An entry point without a `.wav` entry exits with status 1, changes no
      file, and never calls the service. */
  lemma NoAudioExitsWithOne(w: World, apiKey: Option<string>, listing: seq<string>,
                            transcribe: string -> Reply, other: string -> Reply)
    requires forall f :: f in listing ==> !HasExtension(f, AudioExt)
    ensures EntryPoint(w, apiKey, listing, transcribe).status == 1
    ensures EntryPoint(w, apiKey, listing, transcribe).world.files == w.files
    ensures EntryPoint(w, apiKey, listing, transcribe).world.log == w.log + [Entry(Info, ""), Entry(Error, AudioDir)]
    ensures EntryPoint(w, apiKey, listing, transcribe) == EntryPoint(w, apiKey, listing, other)
  {
    if Matching(listing, AudioExt) != [] {
      assert false;
    }
    AppendedTwo(w.log, Entry(Info, ""), Entry(Error, AudioDir));
  }

  /** With a `.wav` entry the script transcribes the first one in listing
      order and never propagates a failure (status 0). */
  lemma FirstAudioTranscribed(w: World, apiKey: Option<string>, listing: seq<string>, transcribe: string -> Reply)
      returns (i: nat)
    requires exists f :: f in listing && HasExtension(f, AudioExt)
    ensures i < |listing| && HasExtension(listing[i], AudioExt)
    ensures forall j :: 0 <= j < i ==> !HasExtension(listing[j], AudioExt)
    ensures EntryPoint(w, apiKey, listing, transcribe).status == 0
    ensures EntryPoint(w, apiKey, listing, transcribe).world.files ==
      Transcribe(w, apiKey, Join(AudioDir, listing[i]), transcribe).world.files
    ensures var audio := Join(AudioDir, listing[i]);
      var files := EntryPoint(w, apiKey, listing, transcribe).world.files;
      audio in w.files ==> audio in files && files[audio] == w.files[audio]
  {
    var f :| f in listing && HasExtension(f, AudioExt);
    assert f in Matching(listing, AudioExt);
    i := FirstMatch(listing, AudioExt);
    var audioFile := Join(AudioDir, listing[i]);
    var c := Transcribe(World(w.files, w.log + [Entry(Info, "")]), apiKey, audioFile, transcribe);
    assert EntryPoint(w, apiKey, listing, transcribe) == Ended(Reported(c), 0);
    TranscribeFilesIgnoreLog(w.files, w.log + [Entry(Info, "")], w.log, apiKey, audioFile, transcribe);
    AudioNeverTranscript(listing[i]);
    TranscribeWritesOnlyTranscript(w, apiKey, audioFile, transcribe, audioFile);
  }

  /** The report ends the log with the outcome line (the transcript path,
      or an error) and the closing line. */
  lemma ReportedLogsOutcome(c: Call)
    ensures var log := Reported(c).log;
      |log| >= 2 && log[|log| - 1] == Entry(Info, "") &&
      log[|log| - 2] == (if c.result.Success? then Entry(Info, c.result.value) else Entry(Error, ""))
  {
  }

  /** The reported outcome adds an error entry exactly when the call
      failed. */
  lemma ReportedLogsFailure(c: Call)
    ensures ErrorSubjects(Reported(c).log)
      == ErrorSubjects(c.world.log) + (if c.result.Success? then [] else [""])
  {
    var outcome := if c.result.Success? then Entry(Info, c.result.value) else Entry(Error, "");
    assert [outcome, Entry(Info, "")] == [outcome] + [Entry(Info, "")];
    ErrorSubjectsAppend(c.world.log, [outcome, Entry(Info, "")]);
    ErrorSubjectsAppend([outcome], [Entry(Info, "")]);
  }

  /** With a `.wav` entry the log ends with the outcome of transcribing the
      first one (its transcript path, or an error) and the closing line. */
  lemma EntryPointReportsOutcome(w: World, apiKey: Option<string>, listing: seq<string>, transcribe: string -> Reply)
    requires Matching(listing, AudioExt) != []
    ensures var log := EntryPoint(w, apiKey, listing, transcribe).world.log;
      var c := Transcribe(w, apiKey, Join(AudioDir, Matching(listing, AudioExt)[0]), transcribe);
      |log| >= 2 && log[|log| - 1] == Entry(Info, "") &&
      log[|log| - 2] == (if c.result.Success? then Entry(Info, c.result.value) else Entry(Error, ""))
  {
    var audioFile := Join(AudioDir, Matching(listing, AudioExt)[0]);
    var c := Transcribe(World(w.files, w.log + [Entry(Info, "")]), apiKey, audioFile, transcribe);
    assert EntryPoint(w, apiKey, listing, transcribe) == Ended(Reported(c), 0);
    TranscribeFilesIgnoreLog(w.files, w.log + [Entry(Info, "")], w.log, apiKey, audioFile, transcribe);
    ReportedLogsOutcome(c);
  }

  /** An audio file in `Data` is never its own transcript path, so a call
      on it never overwrites the audio. */
  lemma AudioNeverTranscript(name: string)
    ensures Join(AudioDir, name) != TranscriptPathFor(Join(AudioDir, name))
  {
    var audio := Join(AudioDir, name);
    TranscriptPathShape(audio);
    if |name| > 0 && name[0] == Sep {
      assert audio[0] == Sep;
    } else {
      assert audio[0] == 'D';
    }
  }

  /** A call writes at most one file: the transcript of its audio path. */
  lemma TranscribeWritesOnlyTranscript(w: World, apiKey: Option<string>, audioPath: string,
                                       transcribe: string -> Reply, k: string)
    requires k != TranscriptPathFor(audioPath)
    ensures var files := Transcribe(w, apiKey, audioPath, transcribe).world.files;
      (k in files <==> k in w.files) && (k in w.files ==> files[k] == w.files[k])
  {
  }

  /** What a call writes does not depend on the log it starts with. */
  lemma TranscribeFilesIgnoreLog(files: map<string, string>, log1: seq<Entry>, log2: seq<Entry>,
                                 apiKey: Option<string>, audioPath: string, transcribe: string -> Reply)
    ensures Transcribe(World(files, log1), apiKey, audioPath, transcribe).world.files ==
            Transcribe(World(files, log2), apiKey, audioPath, transcribe).world.files
    ensures Transcribe(World(files, log1), apiKey, audioPath, transcribe).result ==
            Transcribe(World(files, log2), apiKey, audioPath, transcribe).result
  {
  }
}
