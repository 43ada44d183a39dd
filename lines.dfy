/** Reading a cache file back line by line, as bufio.Scanner does with its
    default split function ScanLines (func.go:78-87). */
module Lines {
  import opened Text

  const NewLine: byte := 10
  const CarriageReturn: byte := 13

  /** bufio.MaxScanTokenSize: a line that does not fit the scanner's 64 KiB
      buffer stops the scan with ErrTooLong. */
  const MaxScanTokenSize: int := 64 * 1024

  /** Where the line starting at `from` ends: the index of the first
      newline at or after `from`, or |data| when there is none. */
  function LineEnd(data: seq<byte>, from: nat): (i: nat)
    requires from <= |data|
    ensures from <= i <= |data|
    ensures i < |data| ==> data[i] == NewLine
    decreases |data| - from
  {
    if from == |data| || data[from] == NewLine then from else LineEnd(data, from + 1)
  }

  /** LineEnd passes over no newline. */
  lemma {:induction false} LineEndFirst(data: seq<byte>, from: nat)
    requires from <= |data|
    ensures forall k :: from <= k < LineEnd(data, from) ==> data[k] != NewLine
    decreases |data| - from
  {
    if from < |data| && data[from] != NewLine {
      LineEndFirst(data, from + 1);
    }
  }

  /** LineEnd stops at the first newline, or at the end of the data. */
  lemma {:induction false} LineEndAt(data: seq<byte>, from: nat, i: nat)
    requires from <= i <= |data|
    requires forall k :: from <= k < i ==> data[k] != NewLine
    requires i < |data| ==> data[i] == NewLine
    ensures LineEnd(data, from) == i
    decreases i - from
  {
    if from < i {
      LineEndAt(data, from + 1, i);
    }
  }

  /** A line without its final carriage return, as ScanLines returns it. */
  function DropCR(line: seq<byte>): seq<byte>
  {
    if |line| > 0 && line[|line| - 1] == CarriageReturn then line[..|line| - 1] else line
  }

  /** `prefix` in front of a collection that succeeded; None stays None. */
  function AppendTo(prefix: seq<byte>, r: Option<seq<byte>>): Option<seq<byte>>
  {
    match r
    case None => None
    case Some(rest) => Some(prefix + rest)
  }

  /** What the scanning loop collects from the unread bytes `data`: every
      line without its terminator, concatenated with nothing in between;
      None when a line (counted up to its newline) fills the scanner's whole
      buffer. */
  function Scanned(data: seq<byte>): Option<seq<byte>>
    decreases |data|
  {
    if data == [] then Some([])
    else
      var i := LineEnd(data, 0);
      if i >= MaxScanTokenSize then None
      else if i == |data| then Some(DropCR(data[..i]))
      else AppendTo(DropCR(data[..i]), Scanned(data[i + 1..]))
  }

  /** The collected bytes hold no newline and are no longer than the input. */
  lemma {:induction false} ScannedBytes(data: seq<byte>)
    ensures var r := Scanned(data);
            r.Some? ==> NewLine !in r.value && |r.value| <= |data|
    decreases |data|
  {
    if data != [] {
      var i := LineEnd(data, 0);
      LineEndFirst(data, 0);
      LineBytes(data, i);
      if i < MaxScanTokenSize && i < |data| {
        ScannedBytes(data[i + 1..]);
        ScanStepsOver(data, i);
      }
    }
  }

  /** Helper: the line before LineEnd, without its carriage return, holds
      no newline and is no longer than the line. */
  lemma LineBytes(data: seq<byte>, i: nat)
    requires i <= |data| && forall k :: 0 <= k < i ==> data[k] != NewLine
    ensures NewLine !in DropCR(data[..i]) && |DropCR(data[..i])| <= i
  {
    assert forall k :: 0 <= k < i ==> data[..i][k] == data[k];
  }

  /** A file holding one line, without newline and not ending in a carriage
      return, reads back as itself. */
  lemma ScannedSingleLine(b: seq<byte>)
    requires NewLine !in b && |b| < MaxScanTokenSize
    requires b != [] ==> b[|b| - 1] != CarriageReturn
    ensures Scanned(b) == Some(b)
  {
    if b != [] {
      LineEndAt(b, 0, |b|);
      assert b[..|b|] == b;
    }
  }

  /** A file made of `lines`, each followed by a newline. */
  function Terminated(lines: seq<seq<byte>>): seq<byte>
  {
    if lines == [] then [] else lines[0] + [NewLine] + Terminated(lines[1..])
  }

  /** The lines without their final carriage returns, concatenated. */
  function Collected(lines: seq<seq<byte>>): seq<byte>
  {
    if lines == [] then [] else DropCR(lines[0]) + Collected(lines[1..])
  }

  /** A line the scanner accepts: no newline inside, and it fits the buffer. */
  predicate ScannableLine(line: seq<byte>)
  {
    NewLine !in line && |line| < MaxScanTokenSize
  }

  /** A line that ends in a newline and fits the buffer is collected, and
      the scan goes on after the newline. */
  lemma ScanLineThen(line: seq<byte>, after: seq<byte>, tail: seq<byte>)
    requires ScannableLine(line) && Scanned(after) == Some(tail)
    ensures Scanned(line + ([NewLine] + after)) == Some(DropCR(line) + tail)
  {
    var data := line + ([NewLine] + after);
    LineEndOf(line, after);
    assert data[|line| + 1..] == after by {
      Associate(line, [NewLine], after);
    }
    ScanStepsOver(data, |line|);
    Chain(Scanned(data), DropCR(line), Scanned(after), tail);
  }

  /** Helper: a newline-free line followed by a newline ends at that newline. */
  lemma LineEndOf(line: seq<byte>, after: seq<byte>)
    requires NewLine !in line
    ensures LineEnd(line + ([NewLine] + after), 0) == |line|
  {
    var data := line + ([NewLine] + after);
    assert forall k :: 0 <= k < |line| ==> data[k] != NewLine by {
      forall k | 0 <= k < |line|
        ensures data[k] != NewLine
      {
        assert data[k] == line[k];
      }
    }
    LineEndAt(data, 0, |line|);
  }

  /** Helper: one unfolding of Scanned past a terminated line. */
  lemma ScanStepsOver(data: seq<byte>, i: nat)
    requires i < |data| && LineEnd(data, 0) == i && i < MaxScanTokenSize
    ensures Scanned(data) == AppendTo(DropCR(data[..i]), Scanned(data[i + 1..]))
  {
  }

  /** Helper: a line in front of a collection that succeeded. */
  lemma Chain(a: Option<seq<byte>>, line: seq<byte>, b: Option<seq<byte>>, tail: seq<byte>)
    requires a == AppendTo(line, b) && b == Some(tail)
    ensures a == Some(line + tail)
  {
  }

  /** A last line without newline that fits the buffer is collected whole. */
  lemma ScanLastLine(last: seq<byte>)
    requires ScannableLine(last)
    ensures Scanned(last) == Some(DropCR(last))
  {
    if last != [] {
      LineEndAt(last, 0, |last|);
      assert last[..|last|] == last;
    }
  }

  /** A file of newline-terminated lines and a last unterminated one reads
      back, through the scanning loop, as the lines without their
      terminators, concatenated. */
  lemma {:induction false} ScannedLines(lines: seq<seq<byte>>, last: seq<byte>)
    requires forall i :: 0 <= i < |lines| ==> ScannableLine(lines[i])
    requires ScannableLine(last)
    ensures Scanned(Terminated(lines) + last) == Some(Collected(lines) + DropCR(last))
    decreases |lines|
  {
    if lines == [] {
      NothingBefore(Terminated(lines), last);
      ScanLastLine(last);
      NothingBefore(Collected(lines), DropCR(last));
    } else {
      var line, rest := lines[0], lines[1..];
      var after := Terminated(rest) + last;
      var tail := Collected(rest) + DropCR(last);
      assert ScannableLine(line);
      assert Terminated(lines) + last == line + ([NewLine] + after) by {
        Associate(line + [NewLine], Terminated(rest), last);
        Associate(line, [NewLine], after);
      }
      assert Scanned(after) == Some(tail) by {
        ScannedLines(rest, last);
      }
      ScanLineThen(line, after, tail);
      Associate(DropCR(line), Collected(rest), DropCR(last));
    }
  }

  /** Helper: `a` is empty. */
  lemma NothingBefore<T>(a: seq<T>, b: seq<T>)
    requires a == []
    ensures a + b == b
  {
  }

  /** Helper: regrouping a three-piece concatenation. */
  lemma Associate<T>(a: seq<T>, b: seq<T>, c: seq<T>)
    ensures a + b + c == a + (b + c)
  {
  }

  /** A line that fills the scanner's buffer stops the scan. */
  lemma LongLineStops(line: seq<byte>, rest: seq<byte>)
    requires NewLine !in line && |line| >= MaxScanTokenSize
    ensures Scanned(line + rest) == None
  {
    var data := line + rest;
    var i := LineEnd(data, 0);
    assert forall k :: 0 <= k < |line| ==> data[k] == line[k];
  }

  /** The loop at func.go:78-87: scanner.Scan() until it stops, appending
      each line's bytes; `unread` is what the scanner has not consumed yet,
      and `readFails` stands for an I/O error reported by scanner.Err(). */
  method ScanFile(data: seq<byte>, readFails: bool) returns (fileData: seq<byte>, ok: bool)
    ensures ok <==> !readFails && Scanned(data).Some?
    ensures ok ==> fileData == Scanned(data).value
  {
    fileData := [];
    var unread := data;
    AppendToNothing(Scanned(data));
    while unread != []
      invariant Scanned(data) == AppendTo(fileData, Scanned(unread))
      decreases |unread|
    {
      var i := LineEnd(unread, 0);
      if i >= MaxScanTokenSize {
        return fileData, false;
      }
      var line := DropCR(unread[..i]);
      var next: seq<byte>;
      if i == |unread| {
        next := [];
        ScanLastStep(unread);
      } else {
        next := unread[i + 1..];
        ScanStepsOver(unread, i);
      }
      AppendToAppend(fileData, line, Scanned(next));
      fileData := fileData + line;
      unread := next;
    }
    AppendToNothing(Some(fileData));
    ok := !readFails;
  }

  /** Helper: the last pass of the loop, over a line without newline. */
  lemma ScanLastStep(data: seq<byte>)
    requires data != [] && LineEnd(data, 0) == |data| < MaxScanTokenSize
    ensures Scanned(data) == AppendTo(DropCR(data[..|data|]), Scanned([]))
  {
    AppendToNothing(Some(DropCR(data[..|data|])));
  }

  /** Helper: an empty prefix, or an empty rest, changes nothing. */
  lemma AppendToNothing(r: Option<seq<byte>>)
    ensures AppendTo([], r) == r
    ensures r.Some? ==> AppendTo(r.value, Some([])) == r
  {
    match r {
      case None =>
      case Some(rest) => assert [] + rest == rest && rest + [] == rest;
    }
  }

  /** Helper: two prefixes in turn are their concatenation. */
  lemma AppendToAppend(a: seq<byte>, b: seq<byte>, r: Option<seq<byte>>)
    ensures AppendTo(a, AppendTo(b, r)) == AppendTo(a + b, r)
  {
    match r {
      case None =>
      case Some(rest) => assert a + (b + rest) == a + b + rest;
    }
  }
}
