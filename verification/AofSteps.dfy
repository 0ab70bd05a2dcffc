/** The append-only file's writer as the steps between the awaits of a rewrite. */
module AofSteps {
  import opened Sequences

  /** The descriptor that lines are written to: not there yet, the file at the path, or already
      closed but still remembered. */
  datatype Fd = Unset | Open | Stale

  /** Where a rewrite is suspended. */
  datatype Phase =
    | Idle
    | Building(commands: seq<string>, buffer: seq<string>)  // the temporary file is being written
    | Appending(temp: seq<string>, tail: seq<string>)       // the detached buffer is being appended to it
    | Renaming(temp: seq<string>)                           // the old file is closed, the new one not yet open

  datatype Writer = Writer(aof: seq<string>, fd: Fd, phase: Phase)

  /** Writing one line. With a closed descriptor the write throws and the line is nowhere. */
  function Append(w: Writer, line: string): Writer {
    if !w.fd.Open? then w
    else
      w.(aof := w.aof + [line],
         phase := if w.phase.Building? then w.phase.(buffer := w.phase.buffer + [line]) else w.phase)
  }

  function Begin(w: Writer, commands: seq<string>): Writer {
    if w.phase.Idle? then w.(phase := Building(commands, [])) else w
  }

  /** Closing the old file before the rename; closing it twice throws and ends the rewrite. */
  function CloseFor(w: Writer, temp: seq<string>): Writer {
    match w.fd
    case Stale => w.(phase := Idle)
    case Open => w.(fd := Stale, phase := Renaming(temp))
    case Unset => w.(phase := Renaming(temp))
  }

  /** The awaited file operation succeeds. */
  function Resume(w: Writer): Writer {
    match w.phase
    case Idle => w
    case Building(commands, buffer) =>
      if buffer == [] then CloseFor(w, commands) else w.(phase := Appending(commands, buffer))
    case Appending(temp, tail) => CloseFor(w, temp + tail)
    case Renaming(temp) => Writer(temp, Open, Idle)
  }

  /** The awaited file operation fails: only the flags are reset. */
  function Fail(w: Writer): Writer {
    w.(phase := Idle)
  }

  /** The rewrite goes on after an await. */
  function Continue(w: Writer, ok: bool): Writer {
    if ok then Resume(w) else Fail(w)
  }

  /** A rewrite of a file that has never been opened ends with the new file at the path, open; one whose file
      has been closed for good is given up before the rename. */
  lemma {:induction false} RewriteUnopened(w: Writer, commands: seq<string>)
    requires w.phase == Building(commands, [])
    ensures w.fd.Unset? ==> Resume(Resume(w)) == Writer(commands, Open, Idle)
    ensures w.fd.Stale? ==> Resume(w) == Writer(w.aof, Stale, Idle)
  {
  }

  // ----- Lines and files -----

  /** The file that a pending rewrite would leave, if it completed with nothing more written. */
  function PendingFile(w: Writer): seq<string> {
    match w.phase
    case Idle => w.aof
    case Building(commands, buffer) => commands + buffer
    case Appending(temp, tail) => temp + tail
    case Renaming(temp) => temp
  }

  /** Lines written now reach both the file at the path and the pending one. */
  predicate Attached(w: Writer) {
    w.fd.Open? && (w.phase.Idle? || w.phase.Building?)
  }

  /** A written line extends the pending file along with the file at the path. */
  lemma {:induction false} AppendBoth(w: Writer, line: string)
    requires Attached(w)
    ensures Append(w, line).aof == w.aof + [line]
    ensures PendingFile(Append(w, line)) == PendingFile(w) + [line]
  {
  }

  /** Moving on with a rewrite, or giving it up, keeps the file at the path on record. */
  lemma {:induction false} ResumeKeeps(w: Writer)
    ensures Resume(w).aof == w.aof || Resume(w).aof == PendingFile(w)
    ensures PendingFile(Resume(w)) == PendingFile(w) || PendingFile(Resume(w)) == w.aof
    ensures Fail(w).aof == w.aof && PendingFile(Fail(w)) == w.aof
  {
  }

  /** Lines placed one after the other. */
  function AppendAll(w: Writer, lines: seq<string>): Writer {
    if lines == [] then w else Append(AppendAll(w, lines[..|lines| - 1]), lines[|lines| - 1])
  }

  lemma {:induction false} AppendSome(w: Writer, lines: seq<string>, more: seq<string>)
    requires |more| <= 1
    ensures AppendAll(w, lines + more)
         == if more == [] then AppendAll(w, lines) else Append(AppendAll(w, lines), more[0])
  {
    if more == [] {
      NothingAppended(lines);
    } else {
      FrontOfAppend(lines, more);
      NothingAppended(lines);
    }
  }

  /** What placing lines does in each phase: both files, the old file only, or none. */
  lemma {:induction false} AppendAllFiles(w: Writer, lines: seq<string>)
    ensures AppendAll(w, lines) ==
            if !w.fd.Open? then w
            else if w.phase.Building? then
              w.(aof := w.aof + lines, phase := w.phase.(buffer := w.phase.buffer + lines))
            else w.(aof := w.aof + lines)
  {
    if lines == [] {
      assert w.aof + lines == w.aof;
      assert w.phase.Building? ==> w.phase.buffer + lines == w.phase.buffer;
    } else {
      var n := |lines| - 1;
      AppendAllFiles(w, lines[..n]);
      assert lines == lines[..n] + [lines[n]];
      assert w.aof + lines == w.aof + lines[..n] + [lines[n]];
      assert w.phase.Building? ==> w.phase.buffer + lines == w.phase.buffer + lines[..n] + [lines[n]];
    }
  }
}
