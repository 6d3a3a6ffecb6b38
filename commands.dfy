/**
 * Structural undo of the last logged entry: the last line of the month's
 * food journal (a JSONL file), or the last dated section of the agent's
 * notes file. Undo never looks at what the entry says; it only cuts text.
 * The file system is a map from paths to file contents, held in a
 * `Workspace` object whose methods rewrite one file in place.
 */
module Commands {
  import opened Wrappers
  import opened Text

  // ---------------------------------------------------------------- paths

  /** `agent_path / "food-journal" / f"{month}.jsonl"`, with the month key given as `YYYY-MM`. */
  function JournalPath(agentPath: string, month: string): string {
    agentPath + "/food-journal/" + month + ".jsonl"
  }

  /** `agent_path / "notes.md"`. */
  function NotesPath(agentPath: string): string {
    agentPath + "/notes.md"
  }

  /** The journal and the notes of one agent are different files. */
  lemma JournalIsNotNotes(agentPath: string, month: string)
    ensures JournalPath(agentPath, month) != NotesPath(agentPath)
  {
    var n := |agentPath| + 1;
    assert JournalPath(agentPath, month)[n] == 'f';
    assert NotesPath(agentPath)[n] == 'n';
  }

  // ---------------------------------------------------------------- the food journal

  /**
   * `_undo_last_food_entry` on the journal text: strip it, split it on
   * newlines, and keep all lines but the last, each followed by a newline.
   * `None` when the stripped text is empty (nothing to undo).
   */
  function DropLastLine(content: string): Option<string> {
    var lines := SplitOn(Strip(content), '\n');
    if lines == [""] then None
    else
      var remaining := lines[..|lines| - 1];
      if remaining != [] then Some(Join("\n", remaining) + "\n") else Some("")
  }

  /** The kept lines, each followed by a newline. */
  function KeptLines(lines: seq<string>): (kept: string)
    requires lines != []
    ensures kept == "" || kept[|kept| - 1] == '\n'
  {
    var remaining := lines[..|lines| - 1];
    if remaining != [] then Join("\n", remaining) + "\n" else ""
  }

  /** A text is its kept lines followed by its last line, which holds no newline. */
  lemma KeptLinesThenLast(s: string)
    ensures var lines := SplitOn(s, '\n');
      && s == KeptLines(lines) + lines[|lines| - 1]
      && '\n' !in lines[|lines| - 1]
  {
    var lines := SplitOn(s, '\n');
    assert lines[|lines| - 1] in lines;
    JoinSplitOn(s, '\n');
    JoinIsKeptThenLast(lines);
  }

  /** Joined lines are the kept lines followed by the last one. */
  lemma JoinIsKeptThenLast(lines: seq<string>)
    requires lines != []
    ensures Join("\n", lines) == KeptLines(lines) + lines[|lines| - 1]
  {
    if |lines| == 1 {
      assert KeptLines(lines) == "";
    } else {
      JoinDropLast("\n", lines);
    }
  }

  /**
   * What dropping the last line means: nothing to drop exactly when the
   * stripped text is empty; otherwise the result is a proper prefix of the
   * stripped text that is empty or ends in a newline, and what it leaves out
   * is a single non-empty line.
   */
  lemma DropLastLineCharacterised(content: string)
    ensures DropLastLine(content).None? <==> Strip(content) == ""
    ensures DropLastLine(content).Some? ==>
      var s := Strip(content);
      var r := DropLastLine(content).value;
      && |r| < |s| && s[..|r|] == r
      && '\n' !in s[|r|..]
      && (r == "" || r[|r| - 1] == '\n')
  {
    var s := Strip(content);
    var lines := SplitOn(s, '\n');
    SplitOnEmpty(s, '\n');
    if lines != [""] {
      assert DropLastLine(content) == Some(KeptLines(lines));
      KeptLinesThenLast(s);
      LastLineKept(s, KeptLines(lines), lines[|lines| - 1]);
    }
  }

  /**
   * A stripped text made of kept lines and a last line: the last line is
   * what follows the kept lines, and it is not empty.
   */
  lemma LastLineKept(s: string, kept: string, last: string)
    requires s == kept + last && s != ""
    requires !IsSpace(s[|s| - 1])
    requires kept == "" || kept[|kept| - 1] == '\n'
    ensures s[..|kept|] == kept && s[|kept|..] == last
    ensures |kept| < |s|
  {
    assert s[..|kept|] == kept;
    assert s[|kept|..] == last;
    if kept != "" {
      assert s[|kept| - 1] == '\n';
    }
  }

  // ---------------------------------------------------------------- the notes

  /** Length of a section header `"\n## YYYY-MM-DD HH:MM\n"`. */
  const HeaderLength: nat := 21

  /** A section header starts at index `i`: `\n## \d{4}-\d{2}-\d{2} \d{2}:\d{2}\n`. */
  predicate HeaderAt(c: string, i: int) {
    && 0 <= i && i + HeaderLength <= |c|
    && c[i] == '\n' && c[i + 1] == '#' && c[i + 2] == '#' && c[i + 3] == ' '
    && IsDigit(c[i + 4]) && IsDigit(c[i + 5]) && IsDigit(c[i + 6]) && IsDigit(c[i + 7])
    && c[i + 8] == '-' && IsDigit(c[i + 9]) && IsDigit(c[i + 10])
    && c[i + 11] == '-' && IsDigit(c[i + 12]) && IsDigit(c[i + 13])
    && c[i + 14] == ' ' && IsDigit(c[i + 15]) && IsDigit(c[i + 16])
    && c[i + 17] == ':' && IsDigit(c[i + 18]) && IsDigit(c[i + 19])
    && c[i + 20] == '\n'
  }

  /**
   * The pattern matches at `i`: a header, then `[^#]*` running to the end
   * of the text (so `$` holds), i.e. no `'#'` after the header.
   */
  predicate SectionAt(c: string, i: int) {
    HeaderAt(c, i) && '#' !in c[i + HeaderLength..]
  }

  /** A matching section is the last header of the text. */
  lemma SectionIsLast(c: string, i: int, j: int)
    requires SectionAt(c, i) && i < j
    ensures !HeaderAt(c, j)
  {
    if i + HeaderLength <= j + 1 < |c| {
      assert c[j + 1] == c[i + HeaderLength..][j + 1 - (i + HeaderLength)];
    }
  }

  /** `re.search`: the leftmost match at or after `i`. */
  function SearchFrom(c: string, i: nat): (r: Option<nat>)
    requires i <= |c|
    ensures r.Some? ==> i <= r.value && SectionAt(c, r.value)
    ensures r.Some? ==> forall j :: i <= j < r.value ==> !SectionAt(c, j)
    ensures r.None? ==> forall j :: i <= j ==> !SectionAt(c, j)
    decreases |c| - i
  {
    if i + HeaderLength > |c| then None
    else if SectionAt(c, i) then Some(i)
    else SearchFrom(c, i + 1)
  }

  /** `_undo_last_note` on the notes text: the text up to the matching header, if there is one. */
  function CutLastNote(c: string): Option<string> {
    match SearchFrom(c, 0)
    case None => None
    case Some(k) => Some(c[..k])
  }

  /**
   * The cut removes exactly the last dated section: nothing is cut when no
   * header is followed by a `'#'`-free tail; otherwise the result is the
   * text before such a header, and no header follows it.
   */
  lemma CutLastNoteCharacterised(c: string)
    ensures CutLastNote(c).None? <==> forall i :: !SectionAt(c, i)
    ensures CutLastNote(c).Some? ==>
      exists i :: SectionAt(c, i) && CutLastNote(c).value == c[..i]
        && forall j :: i < j ==> !HeaderAt(c, j)
  {
    var r := SearchFrom(c, 0);
    if r.Some? {
      var i := r.value;
      forall j | i < j ensures !HeaderAt(c, j) {
        SectionIsLast(c, i, j);
      }
    }
  }

  // ---------------------------------------------------------------- dispatch

  /** Which undo a command name selects. */
  datatype UndoTarget = FoodJournal | Notes | Unsupported

  /** `undo_last`'s dispatch: `"log"` undoes the journal, `"listen"` and `"note"` the notes. */
  function UndoTargetOf(command: string): (t: UndoTarget)
    ensures t == FoodJournal <==> command == "log"
    ensures t == Notes <==> command == "listen" || command == "note"
  {
    if command == "log" then FoodJournal
    else if command in ["listen", "note"] then Notes
    else Unsupported
  }

  /** The outcome of one undo: whether it succeeded, and the files afterwards. */
  datatype UndoOutcome = UndoOutcome(ok: bool, files: map<string, string>)

  /** Rewrite the file at `path` with `cut` applied, or fail and change nothing. */
  function ApplyCut(files: map<string, string>, path: string, cut: Option<string>): UndoOutcome {
    if cut.Some? then UndoOutcome(true, files[path := cut.value]) else UndoOutcome(false, files)
  }

  /** `_undo_last_food_entry`: no file, or nothing but whitespace in it, is a failure. */
  function UndoFoodEntryOn(files: map<string, string>, path: string): UndoOutcome {
    if path !in files then UndoOutcome(false, files)
    else ApplyCut(files, path, DropLastLine(files[path]))
  }

  /** `_undo_last_note`: no file, or no matching section, is a failure. */
  function UndoNoteOn(files: map<string, string>, path: string): UndoOutcome {
    if path !in files then UndoOutcome(false, files)
    else ApplyCut(files, path, CutLastNote(files[path]))
  }

  /** `undo_last`. */
  function UndoLastOn(files: map<string, string>, command: string, agentPath: string, month: string): UndoOutcome {
    match UndoTargetOf(command)
    case FoodJournal => UndoFoodEntryOn(files, JournalPath(agentPath, month))
    case Notes => UndoNoteOn(files, NotesPath(agentPath))
    case Unsupported => UndoOutcome(false, files)
  }

  /** The file an undo of `command` may rewrite. */
  function UndoPath(command: string, agentPath: string, month: string): string {
    if UndoTargetOf(command) == FoodJournal then JournalPath(agentPath, month) else NotesPath(agentPath)
  }

  /**
   * An undo fails without touching anything, or succeeds by rewriting its
   * one target file: the journal with its last line dropped, or the notes
   * with the last section cut. No other file changes, and no file appears
   * or disappears; in particular a notes undo leaves the journal alone and
   * a journal undo leaves the notes alone.
   */
  lemma UndoLastEffect(files: map<string, string>, command: string, agentPath: string, month: string)
    ensures var o := UndoLastOn(files, command, agentPath, month);
      var path := UndoPath(command, agentPath, month);
      && (!o.ok ==> o.files == files)
      && (o.ok ==>
            && path in files && o.files.Keys == files.Keys
            && (forall q :: q in files && q != path ==> o.files[q] == files[q]))
      && (o.ok && UndoTargetOf(command) == FoodJournal ==> DropLastLine(files[path]) == Some(o.files[path]))
      && (o.ok && UndoTargetOf(command) == Notes ==> CutLastNote(files[path]) == Some(o.files[path]))
      && (UndoTargetOf(command) == Unsupported ==> !o.ok)
      && (var journal, notes := JournalPath(agentPath, month), NotesPath(agentPath);
          && (UndoTargetOf(command) == Notes && journal in files ==> journal in o.files && o.files[journal] == files[journal])
          && (UndoTargetOf(command) == FoodJournal && notes in files ==> notes in o.files && o.files[notes] == files[notes]))
  {
    JournalIsNotNotes(agentPath, month);
  }

  /** Undoing the journal fails exactly when the file is absent or holds only whitespace. */
  lemma FoodUndoFailure(files: map<string, string>, path: string)
    ensures !UndoFoodEntryOn(files, path).ok <==> path !in files || Strip(files[path]) == ""
  {
    if path in files {
      DropLastLineCharacterised(files[path]);
    }
  }

  /** Undoing the notes fails exactly when the file is absent or has no matching section. */
  lemma NoteUndoFailure(files: map<string, string>, path: string)
    ensures !UndoNoteOn(files, path).ok <==> path !in files || forall i :: !SectionAt(files[path], i)
  {
    if path in files {
      CutLastNoteCharacterised(files[path]);
    }
  }

  // ---------------------------------------------------------------- the files, in place

  /** The agent directories' files, rewritten in place by the undo operations. */
  class Workspace {
    var files: map<string, string>

    constructor(files: map<string, string>)
      ensures this.files == files
    {
      this.files := files;
    }

    /** `_undo_last_food_entry` for the given month key. */
    method UndoLastFoodEntry(agentPath: string, month: string) returns (ok: bool)
      modifies this
      ensures UndoOutcome(ok, files) == UndoFoodEntryOn(old(files), JournalPath(agentPath, month))
    {
      var path := JournalPath(agentPath, month);
      if path !in files {
        return false;
      }
      var lines := SplitOn(Strip(files[path]), '\n');
      if lines == [""] {
        return false;
      }
      var remaining := lines[..|lines| - 1];
      if remaining != [] {
        files := files[path := Join("\n", remaining) + "\n"];
      } else {
        files := files[path := ""];
      }
      ok := true;
    }

    /** `_undo_last_note`. */
    method UndoLastNote(agentPath: string) returns (ok: bool)
      modifies this
      ensures UndoOutcome(ok, files) == UndoNoteOn(old(files), NotesPath(agentPath))
    {
      var path := NotesPath(agentPath);
      if path !in files {
        return false;
      }
      var content := files[path];
      var found := SearchFrom(content, 0);
      if found.None? {
        return false;
      }
      files := files[path := content[..found.value]];
      ok := true;
    }

    /** `undo_last`: dispatch on the command name; an unsupported one changes nothing. */
    method UndoLast(command: string, agentPath: string, month: string) returns (ok: bool)
      modifies this
      ensures UndoOutcome(ok, files) == UndoLastOn(old(files), command, agentPath, month)
    {
      if command == "log" {
        ok := UndoLastFoodEntry(agentPath, month);
      } else if command in ["listen", "note"] {
        ok := UndoLastNote(agentPath);
      } else {
        ok := false;
      }
    }
  }
}
