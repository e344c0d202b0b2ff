/** How the two stages meet: the transcript the transcription stage writes
    for an audio file is a file the summarization stage selects, and its
    summary carries the same base identifier. */
module Pipeline {
  import opened Wrappers
  import opened Paths
  import opened Staging
  import Transcription
  import Summarization

  /** The base identifier is the join key across the staging areas: for a
      `.wav` entry of `Data` with base identifier `s`, the transcript is
      `text-data/s.txt`, the summarization stage selects the entry `s.txt`,
      reads exactly that transcript, and writes `summarised-data/s_summary.txt`. */
  lemma IdentifierJoin(name: string)
    requires Sep !in name && HasExtension(name, Transcription.AudioExt)
    ensures var s := Stem(name);
      var entry := s + Summarization.TranscriptExt;
      Sep !in entry && HasExtension(entry, Summarization.TranscriptExt) &&
      Transcription.TranscriptPathFor(Join(Transcription.AudioDir, name)) == Summarization.InputPath(entry) &&
      Summarization.OutputPath(entry) == Summarization.SummaryDir + [Sep] + s + Summarization.SummarySuffix
  {
    Transcription.AudioExtIsPlain();
    Summarization.TranscriptExtIsPlain();
    SelectedHasNonDot(name, Transcription.AudioExt);
    StemKeepsIdentity(name);
    var s := Stem(name);
    var entry := s + Summarization.TranscriptExt;
    AppendExtension(s, Summarization.TranscriptExt);
    var audioFile := Join(Transcription.AudioDir, name);
    BasenameOfJoin(Transcription.AudioDir, name);
    Transcription.TranscriptPathShape(audioFile);
    Summarization.InputPathInTextDir(entry);
    Summarization.OutputPathInSummaryDir(entry);
  }

  /** The end-to-end case: `Data` lists one `.wav` file, the recognizer
      returns `transcript`, `text-data` then lists that transcript and the
      language model returns `summary` for its text as a text-mode read gives
      it. Exactly two files change: the transcript and the summary. */
  lemma EndToEnd(files: map<string, string>, log: seq<Entry>, key: Option<string>, name: string,
                 transcribe: string -> Reply, summarize: string -> Reply, transcript: string, summary: string)
    requires KeyPresent(key)
    requires Sep !in name && HasExtension(name, Transcription.AudioExt)
    requires Join(Transcription.AudioDir, name) in files
    requires transcribe(files[Join(Transcription.AudioDir, name)]) == Answer(transcript)
    requires summarize(ReadText(transcript)) == Answer(summary)
    ensures var s := Stem(name);
      var textPath := Summarization.InputPath(s + Summarization.TranscriptExt);
      var summaryPath := Summarization.OutputPath(s + Summarization.TranscriptExt);
      var first := Transcription.EntryPoint(World(files, log), key, [name], transcribe);
      var second := Summarization.Run(first.world, key, [s + Summarization.TranscriptExt], summarize);
      first.status == 0 && second.status == 0 &&
      second.world.files == files[textPath := transcript][summaryPath := summary]
  {
    IdentifierJoin(name);
    var s := Stem(name);
    var entry := s + Summarization.TranscriptExt;
    var textPath := Summarization.InputPath(entry);
    MatchingSingle(name, Transcription.AudioExt);
    var first := Transcription.EntryPoint(World(files, log), key, [name], transcribe);
    assert first.status == 0;
    assert first.world.files == files[textPath := transcript];
    Summarization.KeyedRunCompletes(first.world, key, [entry], summarize);
    Summarization.SingleTranscript(first.world, entry, summarize);
    var r := Summarization.Attempt(first.world.files, entry, summarize);
    assert r == Summarization.Saved(Summarization.OutputPath(entry), summary);
  }
}
