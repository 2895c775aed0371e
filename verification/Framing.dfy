/** LF-framed append-only files: what a whole record is, and what a cut leaves of a file. */
module Framing {
  import opened Wrappers

  function Concat(lines: seq<Bytes>): Bytes {
    if lines == [] then [] else Concat(lines[..|lines| - 1]) + lines[|lines| - 1]
  }

  /** One record: LF ends it and occurs nowhere else in it. */
  predicate IsLine(line: Bytes) {
    line != [] && line[|line| - 1] == LF && LF !in line[..|line| - 1]
  }

  /** `data` is these whole lines, then a tail with no line end. */
  ghost predicate Framed(data: Bytes, lines: seq<Bytes>, tail: Bytes) {
    (forall line <- lines :: IsLine(line)) && LF !in tail && data == Concat(lines) + tail
  }

  lemma ConcatAppend(lines: seq<Bytes>, line: Bytes)
    ensures Concat(lines + [line]) == Concat(lines) + line
  {
    assert (lines + [line])[..|lines|] == lines;
  }

  lemma EndsWithLF(lines: seq<Bytes>)
    requires forall line <- lines :: IsLine(line)
    ensures lines != [] ==> Concat(lines) != [] && Concat(lines)[|Concat(lines)| - 1] == LF
  {
    if lines != [] { assert IsLine(lines[|lines| - 1]); }
  }

  lemma TailNotShorter(data: Bytes, lines: seq<Bytes>, tail: Bytes, lines': seq<Bytes>, tail': Bytes)
    requires Framed(data, lines, tail) && Framed(data, lines', tail')
    ensures |tail| >= |tail'|
  {
    EndsWithLF(lines);
    assert forall i :: |data| - |tail'| <= i < |data| ==> data[i] == tail'[i - (|data| - |tail'|)] != LF;
    assert lines != [] ==> data[|Concat(lines)| - 1] == LF;
  }

  /** A file is framed in one way only. */
  lemma {:induction false} FramingUnique(data: Bytes, lines: seq<Bytes>, tail: Bytes, lines': seq<Bytes>, tail': Bytes)
    requires Framed(data, lines, tail) && Framed(data, lines', tail')
    ensures lines == lines' && tail == tail'
    decreases |lines| + |lines'|
  {
    TailNotShorter(data, lines, tail, lines', tail');
    TailNotShorter(data, lines', tail', lines, tail);
    assert Concat(lines) == data[..|data| - |tail|] == Concat(lines');
    EndsWithLF(lines);
    EndsWithLF(lines');
    if lines != [] {
      var last, n := lines[|lines| - 1], |lines| - 1;
      assert IsLine(last);
      var last', n' := lines'[|lines'| - 1], |lines'| - 1;
      assert IsLine(last');
      var body := Concat(lines)[..|Concat(lines)| - 1];
      assert body == Concat(lines[..n]) + last[..|last| - 1];
      assert body == Concat(lines'[..n']) + last'[..|last'| - 1];
      FramingUnique(body, lines[..n], last[..|last| - 1], lines'[..n'], last'[..|last'| - 1]);
      assert last == last[..|last| - 1] + [LF] && last' == last'[..|last'| - 1] + [LF];
      assert lines == lines[..n] + [last] && lines' == lines'[..n'] + [last'];
    }
  }

  /** How many of `lines` end at or before byte `n` of their concatenation. */
  function WholeLines(lines: seq<Bytes>, n: nat): (k: nat)
    requires n <= |Concat(lines)|
    ensures k <= |lines|
  {
    if lines == [] || n == |Concat(lines)| then |lines|
    else if n >= |Concat(lines[..|lines| - 1])| then |lines| - 1
    else WholeLines(lines[..|lines| - 1], n)
  }

  lemma {:induction false} ConcatGrows(lines: seq<Bytes>, i: nat, j: nat)
    requires i <= j <= |lines|
    ensures Concat(lines[..i]) <= Concat(lines[..j])
  {
    if i < j {
      ConcatGrows(lines, i, j - 1);
      assert lines[..j][..j - 1] == lines[..j - 1];
    }
  }

  /** A cut inside the last line. */
  lemma CutLast(lines: seq<Bytes>, n: nat)
    requires (forall line <- lines :: IsLine(line)) && lines != []
    requires |Concat(lines[..|lines| - 1])| <= n < |Concat(lines)|
    ensures var m := |lines| - 1;
            && Framed(Concat(lines)[..n], lines[..m], Concat(lines)[|Concat(lines[..m])|..n])
            && n - |Concat(lines[..m])| < |lines[m]|
  {
    var m := |lines| - 1;
    assert IsLine(lines[m]);
    assert Concat(lines)[|Concat(lines[..m])|..n] == lines[m][..n - |Concat(lines[..m])|];
    assert Concat(lines)[..n] == Concat(lines[..m]) + lines[m][..n - |Concat(lines[..m])|];
  }

  /** A file of whole lines cut at byte `n` is the lines that end by `n`, and the rest of the next one. */
  lemma {:induction false} CutFraming(lines: seq<Bytes>, n: nat)
    requires (forall line <- lines :: IsLine(line)) && n <= |Concat(lines)|
    ensures var k := WholeLines(lines, n);
            && |Concat(lines[..k])| <= n && Concat(lines[..k]) <= Concat(lines)
            && Framed(Concat(lines)[..n], lines[..k], Concat(lines)[|Concat(lines[..k])|..n])
            && (k < |lines| ==> n < |Concat(lines[..k + 1])| && n - |Concat(lines[..k])| < |lines[k]|)
            && (k == |lines| ==> n == |Concat(lines)|)
  {
    var k := WholeLines(lines, n);
    assert lines[..|lines|] == lines;
    if lines == [] || n == |Concat(lines)| {
      assert Concat(lines)[..n] == Concat(lines) + [];
      assert Concat(lines)[n..n] == [];
    } else {
      var m := |lines| - 1;
      if n >= |Concat(lines[..m])| {
        CutLast(lines, n);
        assert lines[..m + 1] == lines;
      } else {
        CutFraming(lines[..m], n);
        assert k < m;
        assert lines[..m][..k] == lines[..k] && lines[..m][..k + 1] == lines[..k + 1];
        assert Concat(lines)[..n] == Concat(lines[..m])[..n];
        assert Concat(lines)[|Concat(lines[..k])|..n] == Concat(lines[..m])[|Concat(lines[..k])|..n];
      }
    }
  }

  /** Line `j` of a cut file survived exactly if the cut is at or after its end. */
  lemma SurvivesIffEnded(lines: seq<Bytes>, n: nat, j: nat)
    requires (forall line <- lines :: IsLine(line)) && n <= |Concat(lines)| && j < |lines|
    ensures j < WholeLines(lines, n) <==> |Concat(lines[..j + 1])| <= n
  {
    var k := WholeLines(lines, n);
    CutFraming(lines, n);
    if j < k { ConcatGrows(lines, j + 1, k); } else { ConcatGrows(lines, k + 1, j + 1); }
  }

  /** Whether a line is acceptable, given the lines before it. */
  type Check = (seq<Bytes>, Bytes) -> bool

  ghost predicate Accepts(good: Check, max: nat, lines: seq<Bytes>) {
    forall i :: 0 <= i < |lines| ==> |lines[i]| <= max && good(lines[..i], lines[i])
  }

  /** `data` is acceptable lines, then at most one unfinished line. */
  ghost predicate ReadsAs(good: Check, max: nat, data: Bytes, lines: seq<Bytes>, tail: Bytes) {
    Framed(data, lines, tail) && Accepts(good, max, lines) && |tail| <= max
  }

  /** After the acceptable `lines`, `data` goes on with the line `bad` that is not acceptable, or, if that
      is empty, with a line that is too long. */
  ghost predicate CorruptAfter(good: Check, max: nat, data: Bytes, lines: seq<Bytes>, bad: Bytes) {
    && (forall line <- lines :: IsLine(line)) && Accepts(good, max, lines) && Concat(lines) <= data
    && var rest := data[|Concat(lines)|..];
       if bad == [] then |rest| > max && LF !in rest[..max]
       else bad <= rest && |bad| <= max && IsLine(bad) && !good(lines, bad)
  }

  /** A reader that has taken the acceptable `lines` stands at byte `pos` of `data`. */
  ghost predicate TakenTo(good: Check, max: nat, data: Bytes, pos: nat, lines: seq<Bytes>) {
    && pos <= |data| && data[..pos] == Concat(lines)
    && (forall line <- lines :: IsLine(line)) && Accepts(good, max, lines)
  }

  lemma TakeLine(good: Check, max: nat, data: Bytes, pos: nat, end: nat, lines: seq<Bytes>)
    requires TakenTo(good, max, data, pos, lines) && pos <= end <= |data|
    requires IsLine(data[pos..end]) && end - pos <= max && good(lines, data[pos..end])
    ensures TakenTo(good, max, data, end, lines + [data[pos..end]])
  {
    var more := lines + [data[pos..end]];
    ConcatAppend(lines, data[pos..end]);
    assert data[..end] == data[..pos] + data[pos..end];
    forall i | 0 <= i < |more| ensures |more[i]| <= max && good(more[..i], more[i]) {
      assert more[..i] == if i < |lines| then lines[..i] else lines;
    }
  }

  lemma StopAtOversize(good: Check, max: nat, data: Bytes, pos: nat, end: nat, lines: seq<Bytes>)
    requires TakenTo(good, max, data, pos, lines) && pos <= end <= |data|
    requires end - pos == max + 1 && LF !in data[pos..end][..max]
    ensures CorruptAfter(good, max, data, lines, [])
  {
    assert data[pos..][..max] == data[pos..end][..max];
  }

  lemma StopAtBadLine(good: Check, max: nat, data: Bytes, pos: nat, end: nat, lines: seq<Bytes>)
    requires TakenTo(good, max, data, pos, lines) && pos <= end <= |data|
    requires IsLine(data[pos..end]) && end - pos <= max && !good(lines, data[pos..end])
    ensures CorruptAfter(good, max, data, lines, data[pos..end])
  {
    assert data[pos..][..end - pos] == data[pos..end];
  }

  lemma StopAtTail(good: Check, max: nat, data: Bytes, pos: nat, lines: seq<Bytes>)
    requires TakenTo(good, max, data, pos, lines)
    requires |data| - pos <= max && LF !in data[pos..]
    ensures ReadsAs(good, max, data, lines, data[pos..])
  {
    assert data == data[..pos] + data[pos..];
  }

  lemma {:induction false} FramingExists(data: Bytes) returns (lines: seq<Bytes>, tail: Bytes)
    ensures Framed(data, lines, tail)
  {
    if data == [] {
      lines, tail := [], [];
    } else {
      var body := data[..|data| - 1];
      lines, tail := FramingExists(body);
      if data[|data| - 1] == LF {
        var line := tail + [LF];
        assert line[..|line| - 1] == tail;
        ConcatAppend(lines, line);
        assert data == Concat(lines) + line;
        lines, tail := lines + [line], [];
      } else {
        tail := tail + [data[|data| - 1]];
      }
    }
  }

  lemma {:induction false} ConcatSplit(a: seq<Bytes>, b: seq<Bytes>)
    ensures Concat(a + b) == Concat(a) + Concat(b)
  {
    if b == [] {
      assert a + b == a;
    } else {
      var m := |b| - 1;
      ConcatSplit(a, b[..m]);
      assert (a + b)[..|a + b| - 1] == a + b[..m];
    }
  }

  lemma FirstLine(data: Bytes, lines: seq<Bytes>, tail: Bytes, m: nat)
    requires Framed(data, lines, tail) && 0 < m <= |data| && IsLine(data[..m])
    ensures lines != [] && lines[0] == data[..m]
  {
    var lines', tail' := FramingExists(data[m..]);
    var all := [data[..m]] + lines';
    ConcatSplit([data[..m]], lines');
    assert Concat([data[..m]]) == data[..m];
    assert data == data[..m] + data[m..];
    FramingUnique(data, lines, tail, all, tail');
  }

  /** A corrupt file does not read as anything: the two outcomes of a reader exclude each other. */
  lemma CorruptIsUnreadable(good: Check, max: nat, data: Bytes, lines: seq<Bytes>, bad: Bytes,
                            lines': seq<Bytes>, tail': Bytes)
    requires CorruptAfter(good, max, data, lines, bad)
    ensures !ReadsAs(good, max, data, lines', tail')
  {
    var k, rest := |lines|, data[|Concat(lines)|..];
    var more, tail := FramingExists(rest);
    ConcatSplit(lines, more);
    if ReadsAs(good, max, data, lines', tail') {
      FramingUnique(data, lines', tail', lines + more, tail);
      assert more != [] ==> lines'[k] == more[0] && lines'[..k] == lines && IsLine(more[0]);
      if bad != [] {
        assert rest[..|bad|] == bad;
        FirstLine(rest, more, tail, |bad|);
      } else if more != [] {
        StartsWithFirst(rest, more, tail);
      }
    }
  }

  lemma WholeRest(all: seq<Bytes>, lines: seq<Bytes>)
    requires (forall line <- all :: IsLine(line)) && (forall line <- lines :: IsLine(line))
    requires Concat(lines) <= Concat(all)
    ensures lines <= all && Framed(Concat(all)[|Concat(lines)|..], all[|lines|..], [])
  {
    hide Concat, IsLine;
    var rest := Concat(all)[|Concat(lines)|..];
    var more, tail := FramingExists(rest);
    JoinFramed(Concat(all), lines, rest, more, tail);
    assert Framed(Concat(all), all, []) by { assert Concat(all) + [] == Concat(all); }
    FramingUnique(Concat(all), all, [], lines + more, tail);
  }

  lemma OneReplaced(good: Check, max: nat, lines: seq<Bytes>, i: nat, line: Bytes)
    requires (forall each <- lines :: IsLine(each)) && Accepts(good, max, lines) && i < |lines|
    requires IsLine(line) && |line| <= max
    ensures var all := lines[i := line];
            && (forall each <- all :: IsLine(each) && |each| <= max)
            && all[..i] == lines[..i] && forall j :: 0 <= j < i ==> good(all[..j], all[j])
  {
    hide IsLine;
    var all := lines[i := line];
    forall j | 0 <= j < |all| ensures IsLine(all[j]) && |all[j]| <= max {
      assert j != i ==> all[j] == lines[j] && lines[j] in lines;
    }
    forall j | 0 <= j < i ensures good(all[..j], all[j]) {
      assert all[..j] == lines[..j] && good(lines[..j], lines[j]);
    }
  }

  lemma JoinFramed(data: Bytes, lines: seq<Bytes>, rest: Bytes, more: seq<Bytes>, tail: Bytes)
    requires data == Concat(lines) + rest && Framed(rest, more, tail) && forall line <- lines :: IsLine(line)
    ensures Framed(data, lines + more, tail)
  {
    hide Concat, IsLine;
    ConcatSplit(lines, more);
    assert Concat(lines) + (Concat(more) + tail) == (Concat(lines) + Concat(more)) + tail;
  }

  /** In a file of whole lines that fit, a corruption is one of them, after those before it. */
  lemma CorruptLine(good: Check, max: nat, all: seq<Bytes>, lines: seq<Bytes>, bad: Bytes)
    requires forall line <- all :: IsLine(line) && |line| <= max
    requires CorruptAfter(good, max, Concat(all), lines, bad)
    ensures |lines| < |all| && lines == all[..|lines|] && bad == all[|lines|]
  {
    hide IsLine, Accepts, Concat;
    WholeRest(all, lines);
    var rest, more := Concat(all)[|Concat(lines)|..], all[|lines|..];
    if bad == [] {
      FitsWhole(rest, more, max);
    } else {
      assert rest[..|bad|] == bad;
      FirstLine(rest, more, [], |bad|);
    }
  }

  lemma FitsWhole(data: Bytes, lines: seq<Bytes>, max: nat)
    requires Framed(data, lines, []) && forall line <- lines :: |line| <= max
    ensures |data| <= max || LF in data[..max]
  {
    if lines != [] {
      StartsWithFirst(data, lines, []);
      assert |lines[0]| <= max && lines[0] == data[..|lines[0]|];
      if |data| > max {
        var p :| 0 <= p < |lines[0]| && lines[0][p] == LF;
        assert data[..max][p] == LF;
      }
    }
  }

  /** So a reader stops at the first line that is not good. */
  lemma CorruptAtFirst(good: Check, max: nat, all: seq<Bytes>, i: nat, lines: seq<Bytes>, bad: Bytes)
    requires (forall line <- all :: IsLine(line) && |line| <= max) && i < |all|
    requires (forall j :: 0 <= j < i ==> good(all[..j], all[j])) && !good(all[..i], all[i])
    requires CorruptAfter(good, max, Concat(all), lines, bad)
    ensures lines == all[..i] && bad == all[i]
  {
    CorruptLine(good, max, all, lines, bad);
    var k := |lines|;
    forall j | 0 <= j < k ensures good(all[..j], all[j]) {
      assert lines[..j] == all[..j] && good(lines[..j], lines[j]);
    }
    assert !good(all[..k], all[k]);
  }

  /** Such a file does not read as anything. */
  lemma BadLineIsUnreadable(good: Check, max: nat, all: seq<Bytes>, i: nat, lines: seq<Bytes>, tail: Bytes)
    requires (forall line <- all :: IsLine(line)) && i < |all| && !good(all[..i], all[i])
    ensures !ReadsAs(good, max, Concat(all), lines, tail)
  {
    if ReadsAs(good, max, Concat(all), lines, tail) {
      FramingUnique(Concat(all), all, [], lines, tail);
    }
  }

  lemma StartsWithFirst(data: Bytes, lines: seq<Bytes>, tail: Bytes)
    requires Framed(data, lines, tail) && lines != []
    ensures lines[0] <= data && LF in lines[0]
  {
    ConcatSplit(lines[..1], lines[1..]);
    assert lines == lines[..1] + lines[1..];
    assert Concat(lines[..1]) == lines[0];
    assert IsLine(lines[0]);
    assert lines[0][|lines[0]| - 1] == LF;
  }

  lemma AcceptsPrefix(good: Check, max: nat, lines: seq<Bytes>, k: nat)
    requires Accepts(good, max, lines) && k <= |lines|
    ensures Accepts(good, max, lines[..k])
  {
    forall i | 0 <= i < k ensures |lines[..k][i]| <= max && good(lines[..k][..i], lines[..k][i]) {
      assert lines[..k][..i] == lines[..i];
    }
  }

  /** A cut of a file of acceptable lines reads as the lines that end by the cut. */
  lemma CutReadsAs(good: Check, max: nat, lines: seq<Bytes>, n: nat) returns (k: nat, tail: Bytes)
    requires (forall line <- lines :: IsLine(line)) && Accepts(good, max, lines) && n <= |Concat(lines)|
    ensures k == WholeLines(lines, n) && |Concat(lines[..k])| + |tail| == n
    ensures ReadsAs(good, max, Concat(lines)[..n], lines[..k], tail)
  {
    CutFraming(lines, n);
    k := WholeLines(lines, n);
    AcceptsPrefix(good, max, lines, k);
    tail := Concat(lines)[|Concat(lines[..k])|..n];
    assert lines[..|lines|] == lines && (k < |lines| ==> |lines[k]| <= max);
  }

  /** A file opened for reading, and how far it has been read. */
  class InputFile {
    const data: Bytes
    var pos: nat

    ghost predicate Valid()
      reads this
    {
      pos <= |data|
    }

    constructor (data: Bytes)
      ensures Valid() && this.data == data && pos == 0
    {
      this.data, pos := data, 0;
    }

    /** `readline(limit)`: up to the next LF, the limit, or the end of the file. */
    method Readline(limit: nat) returns (chunk: Bytes)
      requires Valid() && limit > 0
      modifies this
      ensures Valid() && old(pos) <= pos && chunk == data[old(pos)..pos] && |chunk| <= limit
      ensures chunk == [] <==> old(pos) == |data|
      ensures chunk != [] ==> LF !in chunk[..|chunk| - 1] && (chunk[|chunk| - 1] == LF ==> IsLine(chunk))
      ensures chunk != [] && chunk[|chunk| - 1] != LF ==> LF !in chunk && (|chunk| == limit || pos == |data|)
    {
      var start := pos;
      while pos < |data| && pos - start < limit
        invariant start <= pos <= |data| && pos - start <= limit
        invariant LF !in data[start..pos]
      {
        pos := pos + 1;
        if data[pos - 1] == LF {
          chunk := data[start..pos];
          assert chunk[..|chunk| - 1] == data[start..pos - 1];
          return;
        }
      }
      chunk := data[start..pos];
    }

    method AtEnd() returns (r: bool)
      requires Valid()
      ensures r <==> pos == |data|
    {
      return pos == |data|;
    }
  }

  /** A file opened for appending. A kill keeps at least the flushed bytes, and at most the written. */
  class AppendFile {
    var written: Bytes
    var flushed: nat
    var isOpen: bool

    ghost predicate Valid()
      reads this
    {
      flushed <= |written|
    }

    /** `open("xb")` */
    constructor ()
      ensures Valid() && written == [] && isOpen
    {
      written, flushed, isOpen := [], 0, true;
    }

    /** Writing to a closed file raises. */
    method Write(bytes: Bytes) returns (ok: bool)
      requires Valid()
      modifies this
      ensures Valid() && ok == old(isOpen) && isOpen == old(isOpen) && flushed >= old(flushed)
      ensures written == if ok then old(written) + bytes else old(written)
    {
      ok := isOpen;
      if !ok { return; }
      written := written + bytes;
      var reached: nat := *;
      if flushed <= reached <= |written| { flushed := reached; }
    }

    /** `flush()`, and `os.fsync` after it when asked; either may raise. */
    method Flush() returns (ok: bool)
      requires Valid()
      modifies this
      ensures Valid() && written == old(written) && isOpen == old(isOpen) && flushed >= old(flushed)
      ensures ok ==> flushed == |written|
    {
      ok := *;
      if ok { flushed := |written|; }
    }

    /** `close()`: flushes, and closes even if that raises. On a closed file it does nothing. */
    method Close() returns (ok: bool)
      requires Valid()
      modifies this
      ensures Valid() && written == old(written) && !isOpen && flushed >= old(flushed)
      ensures !old(isOpen) ==> ok
      ensures old(isOpen) && ok ==> flushed == |written|
    {
      ok := true;
      if isOpen {
        ok := Flush();
        isOpen := false;
      }
    }
  }
}
