/** What the two stages share: the files in the working directory, the
    stage's append-only log, the answers of the remote services and the
    exceptions an operation can raise. */
module Staging {
  import opened Wrappers

  /** Name of the environment variable holding the service credential. */
  const KeyName := "GROQ_API_KEY"

  datatype Level = Info | Error

  /** One log line: its severity and the path or setting name written in
      the message's own text, the empty string when there is none. Text
      interpolated from an exception, timestamps and the rest of the message
      are not modelled. */
  datatype Entry = Entry(level: Level, subject: string)

  /** The answer of one remote call (speech recognition or chat completion):
      the returned text, or an exception raised by the client. */
  datatype Reply = Answer(text: string) | ServiceError

  /** The exceptions that leave a stage operation: `RuntimeError` for a
      missing credential, an `OSError` from `open`, or the client's error. */
  datatype Failure = MissingKey | ReadError | RemoteError

  /** A snapshot of what a stage can change: regular files by path, and the
      stage's log. A path absent from `files` cannot be opened for reading. */
  datatype World = World(files: map<string, string>, log: seq<Entry>)

  /** How a stage process ends: the state it leaves and its exit status. */
  datatype Ended = Ended(world: World, status: int)

  /** `if not key`: the credential is usable only when set and non-empty. */
  predicate KeyPresent(key: Option<string>) {
    key.Some? && key.value != ""
  }

  /** Reading a file opened in text mode (`open(path, 'r')`, universal
      newlines): each `\r\n` and each lone `\r` reaches the program as `\n`;
      every other character is passed through. */
  function ReadText(s: string): (r: string)
    ensures |r| <= |s|
    decreases |s|
  {
    if s == [] then []
    else if s[0] == '\r' then
      if |s| > 1 && s[1] == '\n' then "\n" + ReadText(s[2..]) else "\n" + ReadText(s[1..])
    else [s[0]] + ReadText(s[1..])
  }

  /** A text-mode read never yields a carriage return. */
  lemma {:induction false} ReadTextNoCr(s: string)
    ensures forall i :: 0 <= i < |ReadText(s)| ==> ReadText(s)[i] != '\r'
    decreases |s|
  {
    if s != [] {
      var k := if s[0] == '\r' && |s| > 1 && s[1] == '\n' then 2 else 1;
      ReadTextNoCr(s[k..]);
      var head := if s[0] == '\r' then "\n" else [s[0]];
      assert ReadText(s) == head + ReadText(s[k..]);
    }
  }

  /** Text without carriage returns is read back exactly as stored. */
  lemma {:induction false} ReadTextKeepsPlain(s: string)
    requires forall i :: 0 <= i < |s| ==> s[i] != '\r'
    ensures ReadText(s) == s
    decreases |s|
  {
    if s != [] {
      assert forall i :: 0 <= i < |s[1..]| ==> s[1..][i] == s[i + 1];
      ReadTextKeepsPlain(s[1..]);
      assert s == [s[0]] + s[1..];
    }
  }

  /** Reading what was read changes nothing more. */
  lemma ReadTextIdempotent(s: string)
    ensures ReadText(ReadText(s)) == ReadText(s)
  {
    ReadTextNoCr(s);
    ReadTextKeepsPlain(ReadText(s));
  }

  /** Reading is done piece by piece: a text may be cut anywhere except
      between the two characters of a `\r\n`, and the read of the whole is
      the reads of the pieces, in order. */
  lemma {:induction false} ReadTextAppend(a: string, b: string)
    requires a == [] || a[|a| - 1] != '\r' || b == [] || b[0] != '\n'
    ensures ReadText(a + b) == ReadText(a) + ReadText(b)
    decreases |a|
  {
    if a == [] {
      assert a + b == b;
    } else {
      var k := PieceLength(a);
      assert (a + b)[0] == a[0];
      assert PieceLength(a + b) == k;
      assert (a + b)[k..] == a[k..] + b;
      ReadTextPiece(a);
      ReadTextPiece(a + b);
      ReadTextAppend(a[k..], b);
    }
  }

  /** The length of the first reading piece: 2 for a `\r\n`, 1 otherwise. */
  function PieceLength(s: string): nat
    requires s != []
  {
    if s[0] == '\r' && |s| > 1 && s[1] == '\n' then 2 else 1
  }

  /** What the first reading piece reads as. */
  function PieceRead(c: char): string {
    if c == '\r' then "\n" else [c]
  }

  /** A text is read as its first piece, then the rest. */
  lemma ReadTextPiece(s: string)
    requires s != []
    ensures PieceLength(s) <= |s|
    ensures ReadText(s) == PieceRead(s[0]) + ReadText(s[PieceLength(s)..])
  {
  }

  /** The pieces a text is read in: `\r\n` and a lone `\r` each read as one
      `\n`, and any other character reads as itself. */
  lemma ReadTextUnits(c: char)
    ensures ReadText("\r\n") == "\n"
    ensures ReadText("\r") == "\n"
    ensures c != '\r' ==> ReadText([c]) == [c]
  {
  }

  /** A Windows line ending and an old Mac line ending both read as `\n`. */
  lemma LineEndingsRead()
    ensures ReadText("a\r\nb") == "a\nb"
    ensures ReadText("a\rb") == "a\nb"
  {
    assert "a\r\nb"[1..] == "\r\nb" && "\r\nb"[2..] == "b" && "b"[1..] == [];
    assert "a\rb"[1..] == "\rb" && "\rb"[1..] == "b";
  }

  /** The subjects of the error entries of a log, in order. */
  function ErrorSubjects(log: seq<Entry>): (r: seq<string>)
    ensures |r| <= |log|
    ensures (forall i :: 0 <= i < |log| ==> log[i].level == Info) ==> r == []
  {
    if log == [] then []
    else
      var last := log[|log| - 1];
      assert log == log[..|log| - 1] + [last];
      ErrorSubjects(log[..|log| - 1]) + (if last.level == Error then [last.subject] else [])
  }

  /** A path is an error subject exactly when the log holds an error entry
      naming it. */
  lemma {:induction false} ErrorSubjectsMembers(log: seq<Entry>, s: string)
    ensures s in ErrorSubjects(log) <==> Entry(Error, s) in log
  {
    if log != [] {
      var n := |log|;
      assert log == log[..n - 1] + [log[n - 1]];
      ErrorSubjectsMembers(log[..n - 1], s);
    }
  }

  lemma {:induction false} ErrorSubjectsAppend(a: seq<Entry>, b: seq<Entry>)
    ensures ErrorSubjects(a + b) == ErrorSubjects(a) + ErrorSubjects(b)
  {
    if b == [] {
      assert a + b == a;
    } else {
      assert (a + b)[..|a + b| - 1] == a + b[..|b| - 1];
      ErrorSubjectsAppend(a, b[..|b| - 1]);
    }
  }

  /** Two entries appended one call at a time form one appended block. */
  lemma AppendedTwo(log: seq<Entry>, a: Entry, b: Entry)
    ensures log + [a] + [b] == log + [a, b]
  {
  }

  /** Three entries appended one call at a time form one appended block. */
  lemma AppendedThree(log: seq<Entry>, a: Entry, b: Entry, c: Entry)
    ensures log + [a] + [b] + [c] == log + [a, b, c]
  {
  }

  /** One line logged before a block of lines is the block with that line
      in front. */
  lemma AppendedBlock(log: seq<Entry>, a: Entry, rest: seq<Entry>)
    ensures log + [a] + rest == log + ([a] + rest)
  {
  }

  /** The file system and log of one running stage, changed in place. */
  class Workspace {
    var files: map<string, string>
    var log: seq<Entry>

    constructor (w: World)
      ensures State() == w
    {
      files := w.files;
      log := w.log;
    }

    function State(): World
      reads this
    {
      World(files, log)
    }

    /** `logging.info` / `logging.error`: append one entry. */
    method Record(level: Level, subject: string)
      modifies this
      ensures files == old(files)
      ensures log == old(log) + [Entry(level, subject)]
    {
      log := log + [Entry(level, subject)];
    }

    /** `open(path, 'w').write(content)`: create or fully replace a file. */
    method Write(path: string, content: string)
      modifies this
      ensures files == old(files)[path := content]
      ensures log == old(log)
    {
      files := files[path := content];
    }
  }
}
