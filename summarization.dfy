/** The summarization stage (src/Summarization.py): the credential guard run
    at start-up, and `process_files`, which summarizes every transcript
    listed in `text-data` into `summarised-data`, one item at a time, logging
    and skipping the items that fail. */
module Summarization {
  import opened Wrappers
  import opened Paths
  import opened Staging

  const TextDir := "text-data"
  const SummaryDir := "summarised-data"
  const TranscriptExt := ".txt"
  const SummarySuffix := "_summary.txt"

  /** The work list: the listed names whose lower-cased form ends in `.txt`. */
  function Transcripts(listing: seq<string>): seq<string> {
    Matching(listing, TranscriptExt)
  }

  /** The transcript read for a listed name: `os.path.join('text-data', fname)`. */
  function InputPath(fname: string): string {
    Join(TextDir, fname)
  }

  /** The summary written for a listed name:
      `os.path.join('summarised-data', f"{base}_summary.txt")` with
      `base = os.path.splitext(fname)[0]`. */
  function OutputPath(fname: string): string {
    Join(SummaryDir, Stem(fname) + SummarySuffix)
  }

  /** `init_env`: the key when it is set and non-empty, `RuntimeError` otherwise. */
  function InitEnv(key: Option<string>): (r: Result<string, Failure>)
    ensures r.Success? <==> KeyPresent(key)
    ensures r.Success? ==> r.value == key.value
    ensures r.Failure? ==> r.error == MissingKey
  {
    if KeyPresent(key) then Success(key.value) else Failure(MissingKey)
  }

  // ---------------------------------------------------------------------------
  // The batch, one item at a time

  /** What one iteration of the loop does with one listed name. */
  datatype ItemResult = Saved(out: string, summary: string) | ReadFailed | SummaryFailed

  /** One iteration's outcome against the files as they are when it starts:
      the transcript must open, and the chat completion must answer for
      its text as a text-mode read returns it. */
  function Attempt(files: map<string, string>, fname: string, summarize: string -> Reply): ItemResult {
    var infile := InputPath(fname);
    if infile !in files then ReadFailed
    else match summarize(ReadText(files[infile]))
      case Answer(t) => Saved(OutputPath(fname), t)
      case ServiceError => SummaryFailed
  }

  /** True when processing `fname` writes its summary to `key`. */
  predicate SavesTo(files: map<string, string>, fname: string, summarize: string -> Reply, key: string) {
    var r := Attempt(files, fname, summarize);
    r.Saved? && r.out == key
  }

  /** The log lines of one iteration: "Reading transcript", then either the
      error naming the transcript, or "Sending text" followed by either the
      error or "Received summary" and "Summary saved to" the output. */
  function ItemLog(infile: string, r: ItemResult): seq<Entry> {
    [Entry(Info, infile)] + OutcomeLog(infile, r)
  }

  /** The lines an iteration logs after "Reading transcript". */
  function OutcomeLog(infile: string, r: ItemResult): seq<Entry> {
    match r
      case ReadFailed => [Entry(Error, infile)]
      case SummaryFailed => [Entry(Info, ""), Entry(Error, infile)]
      case Saved(out, _) => [Entry(Info, ""), Entry(Info, ""), Entry(Info, out)]
  }

  /** The files after an iteration: a saved summary replaces its output file. */
  function Store(files: map<string, string>, r: ItemResult): map<string, string> {
    if r.Saved? then files[r.out := r.summary] else files
  }

  function Step(w: World, fname: string, summarize: string -> Reply): World {
    var r := Attempt(w.files, fname, summarize);
    World(Store(w.files, r), w.log + ItemLog(InputPath(fname), r))
  }

  /** The state after the loop has handled `items`, in order. */
  function Batch(w: World, items: seq<string>, summarize: string -> Reply): World
    decreases |items|
  {
    if items == [] then w
    else Step(Batch(w, items[..|items| - 1], summarize), items[|items| - 1], summarize)
  }

  /** `process_files`: an empty work list logs one error and returns. */
  function Processed(w: World, listing: seq<string>, summarize: string -> Reply): World {
    var items := Transcripts(listing);
    if items == [] then World(w.files, w.log + [Entry(Error, TextDir)])
    else Batch(w, items, summarize)
  }

  /** `process_files` (lines 54-79), on the files and log of `ws`. */
  method ProcessFiles(ws: Workspace, listing: seq<string>, summarize: string -> Reply)
    modifies ws
    ensures ws.State() == Processed(old(ws.State()), listing, summarize)
  {
    var items := Transcripts(listing);
    if items == [] {
      ws.Record(Error, TextDir);
      return;
    }
    ghost var w0 := ws.State();
    for i := 0 to |items|
      invariant ws.State() == Batch(w0, items[..i], summarize)
    {
      ProcessItem(ws, items[i], summarize);
      BatchPrefixStep(w0, items, i, summarize);
    }
    assert items[..|items|] == items;
  }

  /** The body of the loop (lines 64-79). */
  method ProcessItem(ws: Workspace, fname: string, summarize: string -> Reply)
    modifies ws
    ensures ws.State() == Step(old(ws.State()), fname, summarize)
  {
    ghost var w0 := ws.State();
    ghost var r := Attempt(w0.files, fname, summarize);
    var infile := InputPath(fname);
    ws.Record(Info, infile);
    TrySummarize(ws, fname, summarize);
    assert ws.files == Store(w0.files, r);
    AppendedBlock(w0.log, Entry(Info, infile), OutcomeLog(infile, r));
  }

  /** The `try` block of the loop body (lines 68-77) and its handler (lines
      78-79), after "Reading transcript" has been logged. */
  method TrySummarize(ws: Workspace, fname: string, summarize: string -> Reply)
    modifies ws
    ensures var r := Attempt(old(ws.files), fname, summarize);
      r.Saved? ==> ws.files == old(ws.files)[r.out := r.summary]
    ensures !Attempt(old(ws.files), fname, summarize).Saved? ==> ws.files == old(ws.files)
    ensures ws.log == old(ws.log) + OutcomeLog(InputPath(fname), Attempt(old(ws.files), fname, summarize))
  {
    var infile := InputPath(fname);
    ghost var log0 := ws.log;
    if infile !in ws.files {
      ws.Record(Error, infile);
      return;
    }
    var content := ReadText(ws.files[infile]);
    ws.Record(Info, "");
    var reply := summarize(content);
    match reply {
      case ServiceError =>
        ws.Record(Error, infile);
        AppendedTwo(log0, Entry(Info, ""), Entry(Error, infile));
      case Answer(summary) =>
        ws.Record(Info, "");
        var outFile := Join(SummaryDir, Stem(fname) + SummarySuffix);
        ws.Write(outFile, summary);
        ws.Record(Info, outFile);
        AppendedThree(log0, Entry(Info, ""), Entry(Info, ""), Entry(Info, outFile));
    }
  }

  // ---------------------------------------------------------------------------
  // The stage as a process

  /** Start-up and `__main__`: log the start, run `init_env` (its
      `RuntimeError` is not caught, so the process exits with status 1), then
      run `process_files` between two log lines. */
  function Run(w: World, key: Option<string>, listing: seq<string>, summarize: string -> Reply): Ended {
    var started := w.log + [Entry(Info, "")];
    match InitEnv(key)
      case Failure(_) => Ended(World(w.files, started + [Entry(Error, KeyName)]), 1)
      case Success(_) =>
        var done := Processed(World(w.files, started + [Entry(Info, "")]), listing, summarize);
        Ended(World(done.files, done.log + [Entry(Info, "")]), 0)
  }

  method RunSummarization(ws: Workspace, key: Option<string>, listing: seq<string>, summarize: string -> Reply)
    returns (status: int)
    modifies ws
    ensures Ended(ws.State(), status) == Run(old(ws.State()), key, listing, summarize)
  {
    ws.Record(Info, "");
    var groqKey := InitEnv(key);
    if groqKey.Failure? {
      ws.Record(Error, KeyName);
      return 1;
    }
    ws.Record(Info, "");
    ProcessFiles(ws, listing, summarize);
    ws.Record(Info, "");
    return 0;
  }

  // ---------------------------------------------------------------------------
  // Properties of the batch

  /** What `os.listdir` guarantees of its entries: names, never paths. */
  predicate NamesOnly(items: seq<string>) {
    forall i :: 0 <= i < |items| ==> Sep !in items[i]
  }

  lemma TranscriptExtIsPlain()
    ensures IsPlainExtension(TranscriptExt)
  {
  }

  /** A listed name's transcript lies directly inside `text-data`. */
  lemma InputPathInTextDir(f: string)
    requires Sep !in f
    ensures InputPath(f) == TextDir + [Sep] + f
  {
  }

  /** A listed name's summary lies directly inside `summarised-data`, named
      by the name's base identifier and the `_summary.txt` suffix. */
  lemma OutputPathInSummaryDir(f: string)
    requires Sep !in f
    ensures OutputPath(f) == SummaryDir + [Sep] + Stem(f) + SummarySuffix
  {
    assert SummaryDir[|SummaryDir| - 1] != Sep && SummarySuffix[0] != Sep;
    JoinStem(SummaryDir, f, SummarySuffix);
  }

  /** No summary is ever written over a transcript. */
  lemma InputNeverOutput(f: string, g: string)
    requires Sep !in f && Sep !in g
    ensures InputPath(f) != OutputPath(g)
  {
    InputPathInTextDir(f);
    OutputPathInSummaryDir(g);
    assert InputPath(f)[0] != OutputPath(g)[0];
  }

  /** The log is only appended to. */
  lemma {:induction false} BatchAppendsToLog(w: World, items: seq<string>, summarize: string -> Reply)
    ensures w.log <= Batch(w, items, summarize).log
  {
    if items != [] {
      BatchAppendsToLog(w, items[..|items| - 1], summarize);
    }
  }

  /** A file that is not the output of any item keeps its presence and content. */
  lemma {:induction false} BatchKeepsKey(w: World, items: seq<string>, summarize: string -> Reply, k: string)
    requires forall i :: 0 <= i < |items| ==> OutputPath(items[i]) != k
    ensures var files := Batch(w, items, summarize).files;
      (k in files <==> k in w.files) && (k in w.files ==> files[k] == w.files[k])
  {
    if items != [] {
      BatchKeepsKey(w, items[..|items| - 1], summarize, k);
    }
  }

  /** Every item reads its transcript as it was before the batch: no
      iteration changes a file in `text-data`. */
  lemma ReadsSeeOriginal(w: World, items: seq<string>, summarize: string -> Reply, f: string)
    requires NamesOnly(items) && Sep !in f
    ensures Attempt(Batch(w, items, summarize).files, f, summarize) == Attempt(w.files, f, summarize)
  {
    forall i | 0 <= i < |items|
      ensures OutputPath(items[i]) != InputPath(f)
    {
      InputNeverOutput(f, items[i]);
    }
    BatchKeepsKey(w, items, summarize, InputPath(f));
  }

  /** Last writer wins: a successful item's summary is the final content of
      its output file unless a later item succeeds on the same output path;
      whatever the file held before is fully replaced. */
  lemma {:induction false} LastWriterWins(w: World, before: seq<string>, x: string, after: seq<string>,
                                          summarize: string -> Reply)
    requires NamesOnly(before + [x] + after)
    requires Attempt(w.files, x, summarize).Saved?
    requires forall i :: 0 <= i < |after| ==>
      !SavesTo(w.files, after[i], summarize, Attempt(w.files, x, summarize).out)
    ensures var r := Attempt(w.files, x, summarize);
      var files := Batch(w, before + [x] + after, summarize).files;
      r.out in files && files[r.out] == r.summary
    decreases |after|
  {
    if after == [] {
      assert before + [x] + after == before + [x];
      BatchSnocFiles(w, before, x, summarize);
    } else {
      var n := |after|;
      var front := after[..n - 1];
      assert before + [x] + after == (before + [x] + front) + [after[n - 1]];
      BatchSnocFiles(w, before + [x] + front, after[n - 1], summarize);
      assert forall i :: 0 <= i < |front| ==> front[i] == after[i];
      LastWriterWins(w, before, x, front, summarize);
    }
  }

  /** A file that no item successfully writes keeps its presence and
      content, even when it is the output path of failing items. */
  lemma {:induction false} UnsavedKeyUnchanged(w: World, items: seq<string>, summarize: string -> Reply, k: string)
    requires NamesOnly(items)
    requires forall i :: 0 <= i < |items| ==> !SavesTo(w.files, items[i], summarize, k)
    ensures var files := Batch(w, items, summarize).files;
      (k in files <==> k in w.files) && (k in w.files ==> files[k] == w.files[k])
  {
    if items != [] {
      var n := |items|;
      var prefix := items[..n - 1];
      BatchLastStep(w, items, summarize);
      assert forall i :: 0 <= i < |prefix| ==> prefix[i] == items[i];
      UnsavedKeyUnchanged(w, prefix, summarize, k);
    }
  }

  /** Two listed names with the same base identifier (`a.txt`, `a.TXT`)
      share one output file; when the later one succeeds, its summary is
      what remains. */
  lemma SameStemLaterWins(w: World, first: string, second: string, summarize: string -> Reply)
    requires Sep !in first && Sep !in second && Stem(first) == Stem(second)
    requires Attempt(w.files, second, summarize).Saved?
    ensures var files := Batch(w, [first, second], summarize).files;
      OutputPath(first) == OutputPath(second) &&
      OutputPath(first) in files && files[OutputPath(first)] == Attempt(w.files, second, summarize).summary
  {
    SecondOfTwoWins(w, first, second, summarize);
  }

  /** Of two listed names, a successful second one leaves its summary in
      its output file. */
  lemma SecondOfTwoWins(w: World, first: string, second: string, summarize: string -> Reply)
    requires Sep !in first && Sep !in second
    requires Attempt(w.files, second, summarize).Saved?
    ensures var r := Attempt(w.files, second, summarize);
      var files := Batch(w, [first, second], summarize).files;
      r.out in files && files[r.out] == r.summary
  {
    var items := [first] + [second] + [];
    assert items[0] == first && items[1] == second;
    assert NamesOnly(items);
    LastWriterWins(w, [first], second, [], summarize);
    assert items == [first, second];
  }

  /** When every listed name is a transcript, the work list is the listing
      itself, in listing order. */
  lemma AllSelected(w: World, listing: seq<string>, summarize: string -> Reply)
    requires listing != [] && forall f :: f in listing ==> HasExtension(f, TranscriptExt)
    ensures Processed(w, listing, summarize) == Batch(w, listing, summarize)
  {
    MatchingAll(listing, TranscriptExt);
  }

  /** Batch isolation: a failing item leaves the files exactly as they
      would be had it not been listed; every other item is processed as if
      it were absent. */
  lemma {:induction false} FailureIsolated(w: World, before: seq<string>, x: string, after: seq<string>,
                                           summarize: string -> Reply)
    requires NamesOnly(before + [x] + after)
    requires !Attempt(w.files, x, summarize).Saved?
    ensures Batch(w, before + [x] + after, summarize).files == Batch(w, before + after, summarize).files
    decreases |after|
  {
    NamesOnlyRemove(before + [x] + after, |before|);
    assert (before + [x] + after)[..|before|] + (before + [x] + after)[|before| + 1..] == before + after;
    if after == [] {
      assert before + [x] + after == before + [x];
      assert before + after == before;
      BatchSnocFiles(w, before, x, summarize);
    } else {
      var n := |after|;
      var y := after[n - 1];
      var front := after[..n - 1];
      assert after == front + [y];
      assert before + [x] + after == (before + [x] + front) + [y];
      assert before + after == (before + front) + [y];
      NamesOnlyRemove(before + [x] + after, |before| + 1 + n - 1);
      assert (before + [x] + after)[..|before| + n] + (before + [x] + after)[|before| + n + 1..]
        == before + [x] + front;
      NamesOnlyRemove(before + after, |before| + n - 1);
      assert (before + after)[..|before| + n - 1] + (before + after)[|before| + n..] == before + front;
      FailureIsolated(w, before, x, front, summarize);
      BatchSnocFiles(w, before + [x] + front, y, summarize);
      BatchSnocFiles(w, before + front, y, summarize);
    }
  }

  /** One more listed item is one more step against the original files. */
  lemma BatchSnocFiles(w: World, items: seq<string>, y: string, summarize: string -> Reply)
    requires NamesOnly(items + [y])
    ensures NamesOnly(items)
    ensures Batch(w, items + [y], summarize).files
      == Store(Batch(w, items, summarize).files, Attempt(w.files, y, summarize))
  {
    BatchLastStep(w, items + [y], summarize);
    assert (items + [y])[..|items|] == items;
  }

  /** The last iteration of the loop sees the files as they were before the
      loop, so the files after the batch are those after the batch without it,
      updated by its outcome against the original files. */
  lemma BatchLastStep(w: World, items: seq<string>, summarize: string -> Reply)
    requires NamesOnly(items) && items != []
    ensures NamesOnly(items[..|items| - 1])
    ensures Batch(w, items, summarize).files
      == Store(Batch(w, items[..|items| - 1], summarize).files, Attempt(w.files, items[|items| - 1], summarize))
  {
    BatchLastSplit(w, items, summarize);
  }

  /** The same for the log: the last iteration logs the lines of its outcome
      against the original files. */
  lemma BatchLastLog(w: World, items: seq<string>, summarize: string -> Reply)
    requires NamesOnly(items) && items != []
    ensures NamesOnly(items[..|items| - 1])
    ensures Batch(w, items, summarize).log
      == Batch(w, items[..|items| - 1], summarize).log
        + ItemLog(InputPath(items[|items| - 1]), Attempt(w.files, items[|items| - 1], summarize))
  {
    BatchLastSplit(w, items, summarize);
  }

  /** The last iteration is one `Step` after the others, and its outcome
      is the one against the files before the loop. */
  lemma BatchLastSplit(w: World, items: seq<string>, summarize: string -> Reply)
    requires NamesOnly(items) && items != []
    ensures NamesOnly(items[..|items| - 1])
    ensures Batch(w, items, summarize) == Step(Batch(w, items[..|items| - 1], summarize), items[|items| - 1], summarize)
    ensures Attempt(Batch(w, items[..|items| - 1], summarize).files, items[|items| - 1], summarize)
      == Attempt(w.files, items[|items| - 1], summarize)
  {
    var n := |items|;
    NamesOnlyRemove(items, n - 1);
    assert items[..n - 1] + items[n..] == items[..n - 1];
    ReadsSeeOriginal(w, items[..n - 1], summarize, items[n - 1]);
  }

  /** Dropping one entry of a listing of names leaves a listing of names. */
  lemma NamesOnlyRemove(items: seq<string>, k: int)
    requires NamesOnly(items) && 0 <= k < |items|
    ensures NamesOnly(items[..k] + items[k + 1..])
  {
    var rest := items[..k] + items[k + 1..];
    forall i | 0 <= i < |rest|
      ensures Sep !in rest[i]
    {
      if i < k {
        assert rest[i] == items[i];
      } else {
        assert rest[i] == items[i + 1];
      }
    }
  }

  /** The loop over `items + [x]` is the loop over `items` and then one more
      iteration. */
  lemma BatchSnoc(w: World, items: seq<string>, x: string, summarize: string -> Reply)
    ensures Batch(w, items + [x], summarize) == Step(Batch(w, items, summarize), x, summarize)
  {
    assert (items + [x])[..|items|] == items;
  }

  /** One more iteration of the loop extends the handled prefix by one. */
  lemma BatchPrefixStep(w: World, items: seq<string>, i: int, summarize: string -> Reply)
    requires 0 <= i < |items|
    ensures Batch(w, items[..i + 1], summarize) == Step(Batch(w, items[..i], summarize), items[i], summarize)
  {
    assert items[..i + 1][..i] == items[..i];
  }

  /** The files the loop leaves do not depend on the log it started with. */
  lemma {:induction false} BatchFilesIgnoreLog(files: map<string, string>, log1: seq<Entry>, log2: seq<Entry>,
                                               items: seq<string>, summarize: string -> Reply)
    ensures Batch(World(files, log1), items, summarize).files == Batch(World(files, log2), items, summarize).files
  {
    if items != [] {
      BatchFilesIgnoreLog(files, log1, log2, items[..|items| - 1], summarize);
    }
  }

  /** The input paths of the items that fail, in order. */
  function FailedInputs(files: map<string, string>, items: seq<string>, summarize: string -> Reply): seq<string>
    decreases |items|
  {
    if items == [] then []
    else
      var last := items[|items| - 1];
      FailedInputs(files, items[..|items| - 1], summarize)
        + (if Attempt(files, last, summarize).Saved? then [] else [InputPath(last)])
  }

  /** Each failing item adds exactly one error entry, naming its transcript,
      and successful items add none. */
  lemma {:induction false} ErrorsNameFailures(w: World, items: seq<string>, summarize: string -> Reply)
    requires NamesOnly(items)
    ensures ErrorSubjects(Batch(w, items, summarize).log)
      == ErrorSubjects(w.log) + FailedInputs(w.files, items, summarize)
  {
    if items == [] {
      assert ErrorSubjects(w.log) + [] == ErrorSubjects(w.log);
    } else {
      var n := |items|;
      var prefix := items[..n - 1];
      var last := items[n - 1];
      BatchLastLog(w, items, summarize);
      ErrorsNameFailures(w, prefix, summarize);
      ErrorsAfterItem(Batch(w, prefix, summarize).log, w.log, FailedInputs(w.files, prefix, summarize),
                      InputPath(last), Attempt(w.files, last, summarize));
    }
  }

  /** Appending one iteration's lines to a log whose errors are known adds
      the transcript when the iteration failed. */
  lemma ErrorsAfterItem(log: seq<Entry>, start: seq<Entry>, failed: seq<string>, infile: string, r: ItemResult)
    requires ErrorSubjects(log) == ErrorSubjects(start) + failed
    ensures ErrorSubjects(log + ItemLog(infile, r))
      == ErrorSubjects(start) + (failed + if r.Saved? then [] else [infile])
  {
    var added := if r.Saved? then [] else [infile];
    LoggedItemErrors(log, infile, r);
    assert ErrorSubjects(start) + failed + added == ErrorSubjects(start) + (failed + added);
  }

  /** The errors of a log with one iteration's lines appended. */
  lemma LoggedItemErrors(log: seq<Entry>, infile: string, r: ItemResult)
    ensures ErrorSubjects(log + ItemLog(infile, r))
      == ErrorSubjects(log) + if r.Saved? then [] else [infile]
  {
    ErrorSubjectsAppend(log, ItemLog(infile, r));
    ItemErrors(infile, r);
  }

  /** One iteration logs an error naming its transcript exactly when it fails. */
  lemma ItemErrors(infile: string, r: ItemResult)
    ensures ErrorSubjects(ItemLog(infile, r)) == if r.Saved? then [] else [infile]
  {
    match r
    case ReadFailed =>
      ErrorSubjectsAppend([Entry(Info, infile)], [Entry(Error, infile)]);
    case SummaryFailed =>
      ErrorSubjectsAppend([Entry(Info, infile), Entry(Info, "")], [Entry(Error, infile)]);
    case Saved(out, _) =>
  }

  /** Transcripts are never created, changed or removed by the stage. */
  lemma TranscriptsUntouched(w: World, listing: seq<string>, summarize: string -> Reply, k: string)
    requires NamesOnly(listing)
    requires |TextDir| < |k| && k[..|TextDir| + 1] == TextDir + [Sep]
    ensures var files := Processed(w, listing, summarize).files;
      (k in files <==> k in w.files) && (k in w.files ==> files[k] == w.files[k])
  {
    var items := Transcripts(listing);
    assert k[0] == TextDir[0];
    forall i | 0 <= i < |items|
      ensures OutputPath(items[i]) != k
    {
      assert items[i] in listing;
      var j :| 0 <= j < |listing| && listing[j] == items[i];
      OutputPathInSummaryDir(items[i]);
      assert OutputPath(items[i])[0] == SummaryDir[0];
    }
    BatchKeepsKey(w, items, summarize, k);
  }

  /** A listing with one transcript runs the loop body once. */
  lemma SingleTranscript(w: World, f: string, summarize: string -> Reply)
    requires HasExtension(f, TranscriptExt)
    ensures Processed(w, [f], summarize) == Step(w, f, summarize)
  {
    MatchingSingle(f, TranscriptExt);
    assert Transcripts([f]) == [f];
    assert [f][..0] == [];
    assert Batch(w, [f], summarize) == Step(Batch(w, [], summarize), f, summarize);
  }

  /** With no `.txt` entry in the listing, nothing is written and the only
      effect is one error entry naming `text-data`. */
  lemma NothingToSummarize(w: World, listing: seq<string>, summarize: string -> Reply)
    requires forall f :: f in listing ==> !HasExtension(f, TranscriptExt)
    ensures Processed(w, listing, summarize) == World(w.files, w.log + [Entry(Error, TextDir)])
  {
    if Transcripts(listing) != [] {
      assert false;
    }
  }

  /** A missing or empty key stops the stage with status 1 before any
      listing or service is consulted: no file changes. */
  lemma MissingKeyStopsStage(w: World, key: Option<string>, listing: seq<string>, summarize: string -> Reply,
                             otherListing: seq<string>, otherSummarize: string -> Reply)
    requires !KeyPresent(key)
    ensures Run(w, key, listing, summarize).status == 1
    ensures Run(w, key, listing, summarize).world.files == w.files
    ensures Run(w, key, listing, summarize).world.log == w.log + [Entry(Info, ""), Entry(Error, KeyName)]
    ensures Run(w, key, listing, summarize) == Run(w, key, otherListing, otherSummarize)
  {
    AppendedTwo(w.log, Entry(Info, ""), Entry(Error, KeyName));
  }

  /** With a key, the stage ends with status 0 whatever the items do, and
      its files are those of `process_files`. */
  lemma KeyedRunCompletes(w: World, key: Option<string>, listing: seq<string>, summarize: string -> Reply)
    requires KeyPresent(key)
    ensures Run(w, key, listing, summarize).status == 0
    ensures Run(w, key, listing, summarize).world.files == Processed(w, listing, summarize).files
  {
    var started := w.log + [Entry(Info, "")] + [Entry(Info, "")];
    BatchFilesIgnoreLog(w.files, started, w.log, Transcripts(listing), summarize);
  }
}
