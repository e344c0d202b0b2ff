# Audio-to-summary staging, modelled in Dafny

The repository turns a recording into a summary in two stages that meet only
through files in the working directory. The transcription stage
(`src/Audio-text.py`) picks the first `.wav` entry of `Data/`, sends it to a
speech recognizer and writes the text to `text-data/<stem>.txt`. The
summarization stage (`src/Summarization.py`) lists `text-data/`, keeps the
entries whose lower-cased name ends in `.txt`, and writes one summary per
transcript to `summarised-data/<stem>_summary.txt`. An item that fails is
logged and skipped, and the loop goes on.

This project models that file-staging core:

- `paths.dfy` (module `Paths`) holds the POSIX path helpers the stages use:
  `str.lower`, `endswith`, `os.path.basename`, `os.path.splitext` and
  `os.path.join`.
- `staging.dfy` (module `Staging`) holds what the stages share: the files as
  a map from path to content, the log as a sequence of entries, the replies
  of the remote services, and the class `Workspace` whose methods write a
  file or append a log entry in place.
- `summarization.dfy` (module `Summarization`) holds `init_env`,
  `process_files` (a method with a loop, proved against the function
  `Processed`) and the process as a whole.
- `transcription.dfy` (module `Transcription`) holds `transcribe_and_save`
  and the `__main__` block.
- `pipeline.dfy` (module `Pipeline`) proves how the two stages meet: the
  base identifier of the audio file names both the transcript and the summary.

The remote services are parameters: total functions from the content sent to
a reply, which is either an answer or an error. The directory listing is a
parameter too, in the order `os.listdir` returned it. An entry the listing
names but the file map lacks models `open()` failing. A transcript is read
in text mode, so the summarizer sends the chat service the stored text with
each `\r\n` and each lone `\r` turned into `\n` (`Staging.ReadText`). Each log
entry keeps its severity and the path or setting name written in the
message's own text, or `""` when there is none; text interpolated from an
exception is not modelled.

A missing `GROQ_API_KEY` ends the two stages differently. In
`src/Audio-text.py` the `RuntimeError` raised by `transcribe_and_save` is
caught by the `__main__` block, which logs it and exits with status 0
(`Transcription.EntryPoint`). In `src/Summarization.py` `init_env` runs at
import time, outside any `try`, so the stage stops with status 1 before any
staging file is touched (`Summarization.Run`, `Summarization.MissingKeyStopsStage`).

## Model

| member | source | states |
|---|---|---|
| Paths.LowerChar | src/Summarization.py:58 | ASCII lower-casing: the result is never upper-case, a non-upper character is kept, and an upper one maps to its lower partner |
| Paths.Lower | src/Summarization.py:58 | `str.lower` keeps the length and lower-cases each character in place |
| Paths.Matching | src/Summarization.py:58 | the list comprehension keeps exactly the entries whose lower-cased name ends in the extension, each as often as it is listed |
| Paths.MatchingAppend | src/Summarization.py:58 | filtering a concatenation filters each part and concatenates, so listing order is kept |
| Paths.MatchingAll | src/Summarization.py:58 | a listing whose every entry passes the test is its own work list |
| Paths.MatchingSingle | src/Audio-text.py:64 | a one-entry listing that passes the test is kept whole |
| Paths.FirstMatch | src/Audio-text.py:64-68 | when some entry passes, the first one kept is the first passing entry of the listing |
| Paths.UpperCaseExtensionSelected | src/Summarization.py:58 | every name ending in `.TXT` passes the `.txt` test |
| Paths.OtherExtensionRejected | src/Summarization.py:58 | every name ending in `.md` is rejected by the `.txt` test |
| Paths.InnerExtensionRejected | src/Summarization.py:58 | every name ending in `.txt.bak` is rejected: only the end of the name counts |
| Paths.LastIndexOf | src/Summarization.py:65 | `rfind`: -1 when absent, otherwise an occurrence with none after it |
| Paths.LastIndexOfAt | src/Summarization.py:65 | an occurrence with none after it is the last index |
| Paths.LastIndexOfAppend | src/Summarization.py:65 | the last occurrence in a concatenation lies in the second part when it occurs there |
| Paths.Basename | src/Audio-text.py:49 | `os.path.basename` has no separator, is a suffix of the path, and is the whole path or follows a separator |
| Paths.BasenameDropsDirectory | src/Audio-text.py:49 | the base name of `d/n` is the base name of `n` |
| Paths.BasenameOfJoin | src/Audio-text.py:49-50 | the base name of a join with a plain name is that name |
| Paths.SplitExt | src/Summarization.py:65 | `os.path.splitext` cuts the path into root and extension; the extension is empty or a dot followed by no dot and no separator |
| Paths.SplitExtFindsExtension | src/Audio-text.py:49 | the extension is non-empty exactly when the final component has a dot preceded by a non-dot character |
| Paths.SplitExtAppend | src/Summarization.py:65 | appending a one-dot extension to a separator-free name with a non-dot character splits back into the two parts |
| Paths.SplitAtLastDot | src/Summarization.py:65 | `a.b.txt` splits at its last dot |
| Paths.LeadingDotKept | src/Summarization.py:65 | a dot followed by text with no dot and no separator (`.txt`, `.bashrc`) has no extension: the whole name is the root |
| Paths.HiddenTranscriptKept | src/Summarization.py:65 | the hidden name `.txt`, which passes the `.txt` test, splits into `.txt` and an empty extension |
| Paths.DirectoryDotKept | src/Audio-text.py:49 | a dot in a directory name is not an extension |
| Paths.TalkSplits | src/Audio-text.py:49 | `talk.wav` has base name `talk.wav` and stem `talk` |
| Paths.CaseVariantsShareStem | src/Summarization.py:58-65 | a separator-free name with a non-dot character, given two extensions that differ only in case (`.txt`, `.TXT`) keeps the same stem under both, and both pass or both fail the extension test |
| Paths.StemKeepsIdentity | src/Audio-text.py:49-50 | the stem of a separator-free name with a non-dot character is again separator-free with a non-dot character, and re-extended with `.txt` it has that stem again |
| Paths.AppendExtension | src/Audio-text.py:50 | a stem plus a plain extension passes that extension's test and splits back into stem and extension |
| Paths.SelectedHasNonDot | src/Audio-text.py:64 | a name that passes a plain extension's test has a non-dot character, so it is not a bare run of dots |
| Paths.Join | src/Summarization.py:64 | `os.path.join`: the second part ends the result; an absolute second part replaces the first, otherwise the first is kept as a prefix |
| Paths.JoinInside | src/Summarization.py:73 | joining a directory not ending in a separator with a relative name inserts exactly one separator |
| Paths.JoinThen | src/Summarization.py:73 | a separator-free text and a relative suffix joined under a directory give directory, separator, text, suffix |
| Paths.StemKeepsNoSep | src/Summarization.py:65 | the stem of a separator-free name is separator-free |
| Paths.JoinStem | src/Audio-text.py:49-50 | a stem plus suffix placed in a directory is the directory, one separator, the stem and the suffix |
| Paths.NonDotBeforeExtension | src/Summarization.py:65 | a non-empty extension is preceded, inside the final component, by a non-dot character |
| Paths.ExtensionAfterNonDot | src/Summarization.py:65 | a dot preceded by a non-dot character in the final component gives a non-empty extension |
| Staging.ReadText | src/Summarization.py:68-69 | a text-mode read is never longer than the stored text |
| Staging.ReadTextNoCr | src/Summarization.py:68-69 | a text-mode read never yields a carriage return |
| Staging.ReadTextAppend | src/Summarization.py:68-69 | a text cut anywhere except inside a `\r\n` reads as the reads of its two pieces, in order |
| Staging.ReadTextPiece | src/Summarization.py:68-69 | a text reads as its first piece (`\r\n`, a lone `\r`, or one other character) followed by the read of the rest |
| Staging.ReadTextUnits | src/Summarization.py:68-69 | `\r\n` and a lone `\r` each read as one `\n`, and any other character reads as itself |
| Staging.ReadTextKeepsPlain | src/Summarization.py:68-69 | stored text without carriage returns is read back exactly |
| Staging.ReadTextIdempotent | src/Summarization.py:68-69 | reading already-read text changes nothing more |
| Staging.LineEndingsRead | src/Summarization.py:68-69 | `a\r\nb` and `a\rb` both read as `a\nb` |
| Staging.ErrorSubjects | src/Summarization.py:79 | a log yields at most one error subject per entry, and none when every entry is informational |
| Staging.ErrorSubjectsAppend | src/Summarization.py:79 | error subjects of an appended log concatenate |
| Staging.ErrorSubjectsMembers | src/Summarization.py:79 | a text is an error subject of a log exactly when the log holds an error entry naming it |
| Staging.Workspace.Record | src/Summarization.py:77-79 | logging appends one entry and leaves the files alone |
| Staging.Workspace.Write | src/Summarization.py:74-75 | opening for `'w'` and writing creates or fully replaces one file and nothing else |
| Summarization.InitEnv | src/Summarization.py:6-12 | succeeds exactly when the key is set and non-empty, returning it; otherwise `RuntimeError` |
| Summarization.ProcessFiles | src/Summarization.py:54-79 | the loop leaves the files and log that `Processed` describes: one error when no transcript is listed, otherwise one step per transcript in listing order |
| Summarization.ProcessItem | src/Summarization.py:64-79 | one iteration reads the transcript, asks for a summary, writes it and logs, or logs one error naming the transcript |
| Summarization.TrySummarize | src/Summarization.py:66-79 | the `try` block either logs an unreadable transcript, or logs a failed request, or writes the summary to its output and logs it; only a success changes a file |
| Summarization.RunSummarization | src/Summarization.py:24-27 | the stage logs its start, stops with status 1 on a missing key, and otherwise runs `process_files` and ends with status 0 |
| Summarization.InputPathInTextDir | src/Summarization.py:64 | a listed name's transcript is `text-data/<name>` |
| Summarization.OutputPathInSummaryDir | src/Summarization.py:65-73 | a listed name's summary is `summarised-data/<stem>_summary.txt` |
| Summarization.InputNeverOutput | src/Summarization.py:64-73 | no summary path is ever a transcript path |
| Summarization.BatchAppendsToLog | src/Summarization.py:63-79 | the loop only appends to the log |
| Summarization.BatchKeepsKey | src/Summarization.py:63-79 | a file that is no item's output keeps its presence and content |
| Summarization.ReadsSeeOriginal | src/Summarization.py:68-69 | every item reads its transcript as it was before the loop |
| Summarization.LastWriterWins | src/Summarization.py:73-75 | a successful item's summary is the final content of its output, whatever came before it, when no later item writes the same output |
| Summarization.UnsavedKeyUnchanged | src/Summarization.py:74-75 | a file no item successfully writes keeps its presence and content |
| Summarization.SameStemLaterWins | src/Summarization.py:65-75 | two names with one stem share one output, and the later successful summary is what remains |
| Summarization.SecondOfTwoWins | src/Summarization.py:73-75 | of two listed names, a successful second one leaves its summary in its output file |
| Summarization.AllSelected | src/Summarization.py:58-63 | when every entry is a transcript, the loop runs over the listing in its order |
| Summarization.FailureIsolated | src/Summarization.py:78-79 | a failing item anywhere in the work list leaves the files exactly as the same list without it does |
| Summarization.BatchSnoc | src/Summarization.py:63 | one more listed item is one more loop step |
| Summarization.BatchPrefixStep | src/Summarization.py:63 | each loop iteration extends the handled prefix of the work list by one step |
| Summarization.BatchSnocFiles | src/Summarization.py:63-79 | one more listed item updates the files by its outcome against the files before the loop |
| Summarization.BatchLastStep | src/Summarization.py:63-79 | the last iteration's outcome, judged on the files before the loop, updates the files of the loop without it |
| Summarization.BatchLastSplit | src/Summarization.py:63-79 | the last iteration is one step after the others, and its outcome is the one against the files before the loop |
| Summarization.BatchLastLog | src/Summarization.py:63-79 | the last iteration appends the log lines of its outcome, judged on the files before the loop |
| Summarization.BatchFilesIgnoreLog | src/Summarization.py:63-79 | the files the loop leaves do not depend on the earlier log |
| Summarization.ErrorsNameFailures | src/Summarization.py:78-79 | the loop's error entries are exactly the transcripts of the failing items, in order |
| Summarization.ErrorsAfterItem | src/Summarization.py:78-79 | one more iteration adds its transcript to the known error subjects exactly when it fails |
| Summarization.LoggedItemErrors | src/Summarization.py:67-79 | appending one iteration's lines adds one error naming its transcript when it fails, none when it succeeds |
| Summarization.ItemErrors | src/Summarization.py:67-79 | the log lines of an iteration hold an error exactly when it fails |
| Summarization.TranscriptsUntouched | src/Summarization.py:54-79 | no file under `text-data/` is created, changed or removed |
| Summarization.SingleTranscript | src/Summarization.py:58-79 | one listed transcript runs the loop body once |
| Summarization.NothingToSummarize | src/Summarization.py:59-61 | no `.txt` entry logs one error and changes no file |
| Summarization.MissingKeyStopsStage | src/Summarization.py:6-12 | a missing or empty key ends the stage with status 1, no file changed, the start line and one error naming the key logged, whatever the listing and the service |
| Summarization.KeyedRunCompletes | src/Summarization.py:82-85 | with a key the stage ends with status 0 and leaves the files of `process_files` |
| Transcription.Transcribe | src/Audio-text.py:25-59 | succeeds exactly when the key is set, the audio file opens and the recognizer answers; success writes the transcript and returns its path; failure changes no file; a missing key raises before anything else, logging one error; with a key, the call logs the audio path and then either an error naming it or the transcript path |
| Transcription.TranscribeAndSave | src/Audio-text.py:25-59 | the method leaves the files and log and returns the result that `Transcribe` describes |
| Transcription.RunTranscription | src/Audio-text.py:62-75 | the script exits 1 when no `.wav` is listed; otherwise it transcribes the first one, logs the outcome and exits 0 |
| Transcription.TranscriptPathShape | src/Audio-text.py:49-50 | the transcript is `text-data/<stem of the base name>.txt` |
| Transcription.DirectoryDiscarded | src/Audio-text.py:49 | the directory of the audio path does not reach the transcript name |
| Transcription.TalkExample | src/Audio-text.py:49-50 | `Data/talk.wav` gives `text-data/talk.txt` |
| Transcription.KeyCheckedFirst | src/Audio-text.py:31-33 | without a key the call fails the same way whatever the recognizer does, changing no file |
| Transcription.RerunOverwrites | src/Audio-text.py:51-52 | a second successful run on the same audio replaces the transcript with the second text |
| Transcription.NoAudioExitsWithOne | src/Audio-text.py:64-67 | no `.wav` entry exits with status 1, changing no file and logging the start line and one error naming `Data`, whatever the recognizer does |
| Transcription.FirstAudioTranscribed | src/Audio-text.py:64-71 | with a `.wav` entry the script exits 0 and leaves the files of transcribing the first `.wav` entry in listing order; that audio file is left unchanged |
| Transcription.EntryPointReportsOutcome | src/Audio-text.py:68-75 | with a `.wav` entry the log ends with the outcome of transcribing the first one (its transcript path, or an error) and the closing line |
| Transcription.ReportedLogsOutcome | src/Audio-text.py:70-75 | the report appends the outcome line (the path, or an error) and then the closing line |
| Transcription.ReportedLogsFailure | src/Audio-text.py:73-74 | the report adds an error entry exactly when the call failed |
| Transcription.AudioNeverTranscript | src/Audio-text.py:68 | an audio path under `Data` is never its own transcript path |
| Transcription.TranscribeWritesOnlyTranscript | src/Audio-text.py:49-52 | a call changes no file other than the transcript path of its audio file |
| Transcription.TranscribeFilesIgnoreLog | src/Audio-text.py:25-59 | what a call writes and returns does not depend on the log it starts with |
| Transcription.ReportOutcome | src/Audio-text.py:70-75 | the script logs the transcript path on success or the error on failure, then its closing line |
| Pipeline.IdentifierJoin | src/Audio-text.py:49-50 | the transcript written for `<stem>.wav` is listed as `<stem>.txt`, passes the summarizer's filter, and gives `summarised-data/<stem>_summary.txt` |
| Pipeline.EndToEnd | src/Summarization.py:54-79 | one `.wav`, a key, a recognizer that answers and a chat service that answers for the transcript as read back in text mode end both stages with status 0, leaving exactly the transcript and the summary as new content |

## Left out

- `src/Youtube_Audio.py` (downloading audio) is not part of this model.
- The Groq client, its construction and its request parameters (model name, temperature, maximum tokens, response format) are left out; each service is a function from content to reply.
- The services are deterministic functions, so two calls with the same content give the same reply.
- `load_dotenv`, `os.makedirs`, log file names, message text, timestamps and log formatting are left out; a log entry keeps only its severity and the path or setting name written in the message's own text.
- The order of `os.listdir` is an input; the model does not choose it.
- Concurrency and other processes changing the directories while a stage runs are left out.
- Lower-casing covers ASCII letters only; non-ASCII case mapping is left out.
- Writes never fail in the model; a write that truncates the file and then fails is left out.
- Text encoding (UTF-8 decoding errors) and binary audio content are left out; file contents are strings. Newline translation on reading a transcript is modelled; the transcript is written unchanged, as text-mode writing does on POSIX.
- A reply whose message content is `None` is left out; an answer always carries text.
- The lemmas about the summarization loop require `NamesOnly`: listed entries are names without a separator, as `os.listdir` returns them.
