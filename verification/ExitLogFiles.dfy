/** The two files of the exit log: lines are appended to one, and it takes the place of
    the other before a line would make it too long. */
module ExitLogFiles {
  import opened Wrappers

  const MAX_BYTES: nat := 256 * 1024

  datatype Files = Files(current: Option<string>, rotated: Option<string>)

  function Text(file: Option<string>): string { if file.None? then "" else file.value }

  /** What the system does to one `emit`: whether `stat`, `rename` and `open` succeed,
      and how much of the line `write` takes before it fails. */
  datatype Luck = Luck(stats: bool, renames: bool, opens: bool, written: nat)

  predicate IsFull(files: Files, line: string) {
    files.current.Some? && |files.current.value| + |line| > MAX_BYTES
  }

  function Written(line: string, luck: Luck): string {
    if !luck.opens then "" else if luck.written < |line| then line[..luck.written] else line
  }

  function Emitted(files: Files, line: string, luck: Luck): Files {
    var ready := if IsFull(files, line) && luck.stats && luck.renames then Files(None, files.current) else files;
    if luck.opens then ready.(current := Some(Text(ready.current) + Written(line, luck))) else ready
  }

  class Log {
    var ready: bool
    var files: Files

    constructor (ready: bool, files: Files)
      ensures this.ready == ready && this.files == files
    {
      this.ready, this.files := ready, files;
    }

    method Emit(line: string, luck: Luck)
      modifies this`files
      ensures files == if ready then Emitted(old(files), line, luck) else old(files)
    {
      if !ready {
        return;
      }
      if luck.stats && files.current.Some? && |files.current.value| + |line| > MAX_BYTES {
        if luck.renames {
          files := Files(None, files.current);
        }
      }
      if !luck.opens {
        return;
      }
      files := files.(current := Some(Text(files.current) + Written(line, luck)));
    }
  }

  /** A run of `emit` calls. */
  datatype Emission = Emission(line: string, luck: Luck)

  function RunOf(files: Files, run: seq<Emission>): Files {
    if run == [] then files
    else Emitted(RunOf(files, run[..|run| - 1]), run[|run| - 1].line, run[|run| - 1].luck)
  }

  function AllWritten(run: seq<Emission>): string {
    if run == [] then ""
    else AllWritten(run[..|run| - 1]) + Written(run[|run| - 1].line, run[|run| - 1].luck)
  }

  predicate Fits(file: Option<string>) { |Text(file)| <= 262144 }

  /** Every rotation that was due in the run happened. */
  predicate Rotates(files: Files, run: seq<Emission>) {
    run == [] ||
    var last := run[|run| - 1];
    && Rotates(files, run[..|run| - 1])
    && (IsFull(RunOf(files, run[..|run| - 1]), last.line) ==> last.luck.stats && last.luck.renames)
  }

  predicate LinesFit(run: seq<Emission>) {
    run == [] || (LinesFit(run[..|run| - 1]) && |run[|run| - 1].line| <= 262144)
  }

  /** Nothing written is lost but from the front: the two files hold, in order, the end
      of all that was ever written. */
  lemma {:induction false} FilesHoldTheEnd(files: Files, run: seq<Emission>) returns (gone: string)
    ensures gone + (Text(RunOf(files, run).rotated) + Text(RunOf(files, run).current))
         == Text(files.rotated) + Text(files.current) + AllWritten(run)
  {
    hide Emitted, Written;
    if run == [] {
      gone := "";
      assert Text(files.rotated) + Text(files.current) + ""
          == "" + (Text(files.rotated) + Text(files.current));
    } else {
      var last, shorter := run[|run| - 1], run[..|run| - 1];
      gone := FilesHoldTheEnd(files, shorter);
      gone := EmissionKeepsTheEnd(RunOf(files, shorter), last, gone, Text(files.rotated) + Text(files.current),
                                  AllWritten(shorter));
    }
  }

  /** One emission drops text from the front, at most. */
  lemma EmissionKeepsTheEnd(before: Files, e: Emission, gone: string, start: string, written: string)
    returns (more: string)
    requires gone + (Text(before.rotated) + Text(before.current)) == start + written
    ensures var after := Emitted(before, e.line, e.luck);
      more + (Text(after.rotated) + Text(after.current)) == start + (written + Written(e.line, e.luck))
  {
    hide IsFull;
    var line := Written(e.line, e.luck);
    MovedText(gone, Text(before.rotated), Text(before.current), line, start, written);
    more := if IsFull(before, e.line) && e.luck.stats && e.luck.renames then gone + Text(before.rotated) else gone;
    assert "" + line == line && Text(before.current) + "" == Text(before.current);
    assert written + "" == written;
  }

  lemma MovedText(gone: string, rotated: string, current: string, line: string, start: string, written: string)
    requires gone + (rotated + current) == start + written
    ensures gone + rotated + (current + line) == start + (written + line)
    ensures gone + (rotated + (current + line)) == start + (written + line)
  {
    assert start + (written + line) == gone + (rotated + current) + line;
  }

  /** Neither file outgrows the bound, if every rotation that was due happened. */
  lemma {:induction false} FilesStayBounded(files: Files, run: seq<Emission>)
    requires Fits(files.current) && Fits(files.rotated) && LinesFit(run) && Rotates(files, run)
    ensures Fits(RunOf(files, run).current) && Fits(RunOf(files, run).rotated)
  {
    if run != [] {
      FilesStayBounded(files, run[..|run| - 1]);
    }
  }

  /** And a line written without the rotation it needed breaks the bound. */
  lemma UnrotatedGrows(files: Files, line: string, luck: Luck)
    requires IsFull(files, line) && luck.opens && luck.written >= |line|
    ensures Fits(files.current) && |line| <= MAX_BYTES ==>
      (Fits(Emitted(files, line, luck).current) <==> luck.stats && luck.renames)
  {
  }
}
