/** Source positions and the recovery of a span's text from its file
    (`Span`, `Loc`, `FileName` in frontend/exporter/src/types/copied.rs:497-690
    and the pure part of `read_span_from_file`, frontend/exporter/src/rustc_utils.rs:57-104).
    A file is given as the sequence of its lines, as `BufRead::lines` yields
    them: no line contains a newline. */
module Spans {

  import opened Wrappers

  datatype Loc = Loc(line: nat, col: nat)

  datatype RealFileName =
    | LocalPath(path: string)
    | Remapped(localPath: Option<string>, virtualName: string)

  datatype FileName =
    | Real(realName: RealFileName)
    | QuoteExpansion(quoteHash: nat)
    | Anon(anonHash: nat)
    | MacroExpansion(expansionHash: nat)
    | ProcMacroSourceCode(procMacroHash: nat)
    | CfgSpec(cfgHash: nat)
    | CliCrateAttr(cliHash: nat)
    | Custom(custom: string)
    | DocTest(docTest: string)
    | InlineAsm(asmHash: nat)

  datatype Span = Span(lo: Loc, hi: Loc, filename: FileName)

  /** Why a span's text could not be recovered. `WhileReading` stands for the
      I/O error of opening a file that does not exist. */
  datatype ReadSpanErr =
    | NotRealFileName(filename: FileName)
    | WhileReading(missing: string)
    | NotEnoughLines(span: Span)

  /** The files readable by the exporter, each as its sequence of lines. */
  type FileSystem = map<string, seq<string>>

  predicate WellFormedFiles(fs: FileSystem) {
    forall p :: p in fs ==> NoNewlines(fs[p])
  }

  predicate NoNewlines(lines: seq<string>) {
    forall i :: 0 <= i < |lines| ==> '\n' !in lines[i]
  }

  function Min(a: nat, b: nat): nat {
    if a <= b then a else b
  }

  /** Only a `Real(LocalPath(_))` file name designates a file on disk. */
  function LocalPathOf(f: FileName): Option<string> {
    match f
    case Real(LocalPath(p)) => Some(p)
    case _ => None
  }

  /** The read reaches the line arithmetic only for an existing local file. */
  predicate ReachesLines(span: Span, fs: FileSystem) {
    LocalPathOf(span.filename).Some? && LocalPathOf(span.filename).value in fs
  }

  /** Lines are 1-based and `lo` precedes `hi`; otherwise the `usize`
      subtractions of rustc_utils.rs:82-83 would underflow. */
  predicate ReadableSpan(span: Span, fs: FileSystem) {
    ReachesLines(span, fs) ==> 1 <= span.lo.line <= span.hi.line
  }

  /** `Iterator::skip`. */
  function Skip<T>(xs: seq<T>, n: nat): (r: seq<T>)
    ensures r == xs[Min(n, |xs|)..]
  {
    if n >= |xs| then [] else xs[n..]
  }

  /** `Iterator::take`. */
  function Take<T>(xs: seq<T>, n: nat): (r: seq<T>)
    ensures r == xs[..Min(n, |xs|)]
  {
    if n >= |xs| then xs else xs[..n]
  }

  /** The lines a span covers: at most `hi.line - lo.line + 1` of them,
      starting with line `lo.line` (1-based). */
  function SelectLines(lines: seq<string>, lo: Loc, hi: Loc): (r: seq<string>)
    requires 1 <= lo.line <= hi.line
    ensures |r| <= hi.line - lo.line + 1
    ensures r == lines[Min(lo.line - 1, |lines|)..Min(hi.line, |lines|)]
  {
    Take(Skip(lines, lo.line - 1), hi.line - lo.line + 1)
  }

  /** The characters of `cs` whose index, counted from `offset`, lies in
      `[lo, hi)`: the `enumerate().filter(..)` of rustc_utils.rs:88-93.
      The result is one contiguous slice of `cs`. */
  function ColumnFilter(cs: string, offset: nat, lo: nat, hi: nat): (r: string)
    ensures var a := Min(if lo >= offset then lo - offset else 0, |cs|);
            var b := Min(if hi >= offset then hi - offset else 0, |cs|);
            r == if a <= b then cs[a..b] else []
    decreases |cs|
  {
    if |cs| == 0 then []
    else
      ColumnFilterStep(cs, offset, lo, hi);
      (if lo <= offset < hi then [cs[0]] else []) + ColumnFilter(cs[1..], offset + 1, lo, hi)
  }

  /** One step of `ColumnFilter`: the head character followed by the slice
      of the tail is the slice of the whole string. */
  lemma ColumnFilterStep(cs: string, offset: nat, lo: nat, hi: nat)
    requires |cs| > 0
    ensures var a := Min(if lo >= offset then lo - offset else 0, |cs|);
            var b := Min(if hi >= offset then hi - offset else 0, |cs|);
            var a1 := Min(if lo >= offset + 1 then lo - offset - 1 else 0, |cs| - 1);
            var b1 := Min(if hi >= offset + 1 then hi - offset - 1 else 0, |cs| - 1);
            (if lo <= offset < hi then [cs[0]] else []) + (if a1 <= b1 then cs[1..][a1..b1] else [])
              == if a <= b then cs[a..b] else []
  {
    var a := Min(if lo >= offset then lo - offset else 0, |cs|);
    var b := Min(if hi >= offset then hi - offset else 0, |cs|);
    var a1 := Min(if lo >= offset + 1 then lo - offset - 1 else 0, |cs| - 1);
    var b1 := Min(if hi >= offset + 1 then hi - offset - 1 else 0, |cs| - 1);
    if lo <= offset < hi {
      assert a == 0 && a1 == 0 && b1 == b - 1;
      assert [cs[0]] + cs[1..][0..b1] == cs[0..b];
    } else if offset < lo {
      assert a1 == a - 1;
      if hi > offset {
        assert b1 == b - 1;
        if a <= b {
          assert cs[1..][a1..b1] == cs[a..b];
        }
      } else {
        assert b == 0 && b1 == 0;
      }
    } else {
      assert b == 0 && b1 == 0 && a == 0 && a1 == 0;
    }
  }

  /** `join("\n")`. */
  function Join(lines: seq<string>): string {
    if |lines| == 0 then ""
    else if |lines| == 1 then lines[0]
    else lines[0] + "\n" + Join(lines[1..])
  }

  /** The index of the first occurrence of `c`. */
  function FirstIndex(s: string, c: char): (i: nat)
    requires c in s
    ensures i < |s| && s[i] == c && c !in s[..i]
  {
    if s[0] == c then 0
    else
      assert c in s[1..] by {
        var k :| 0 <= k < |s| && s[k] == c;
        assert s[1..][k - 1] == c;
      }
      var j := FirstIndex(s[1..], c);
      assert s[..j + 1] == [s[0]] + s[1..][..j];
      j + 1
  }

  /** Splitting at newlines: the inverse of `Join` on newline-free lines. */
  function Split(s: string): (r: seq<string>)
    ensures |r| >= 1
    decreases |s|
  {
    if '\n' !in s then [s]
    else
      var i := FirstIndex(s, '\n');
      [s[..i]] + Split(s[i + 1..])
  }

  function CountNewlines(s: string): nat {
    if |s| == 0 then 0 else (if s[0] == '\n' then 1 else 0) + CountNewlines(s[1..])
  }

  /** The text a span covers: an error for a file name that is not a local
      path, for a missing file, or when no line is selected; the column slice
      of a single line; otherwise the first line from `lo.col`, the middle
      lines verbatim and the last line up to `hi.col`, joined by newlines. */
  function ReadSpanFromFile(span: Span, fs: FileSystem): (r: Result<string, ReadSpanErr>)
    requires ReadableSpan(span, fs)
    ensures r.Err? && r.error.NotRealFileName? <==> LocalPathOf(span.filename).None?
    ensures r.Err? && r.error.WhileReading? <==> LocalPathOf(span.filename).Some? && !ReachesLines(span, fs)
    ensures r.Err? && r.error.NotEnoughLines? <==>
              ReachesLines(span, fs) && |fs[LocalPathOf(span.filename).value]| < span.lo.line
    ensures r.Err? && r.error.NotRealFileName? ==> r.error.filename == span.filename
  {
    match LocalPathOf(span.filename)
    case None => Err(NotRealFileName(span.filename))
    case Some(path) =>
      if path !in fs then Err(WhileReading(path))
      else
        var lines := SelectLines(fs[path], span.lo, span.hi);
        if |lines| == 0 then Err(NotEnoughLines(span))
        else if |lines| == 1 then Ok(ColumnFilter(lines[0], 0, span.lo.col, span.hi.col))
        else
          var first := Skip(lines[0], span.lo.col);
          var last := Take(lines[|lines| - 1], span.hi.col);
          Ok(Join([first] + lines[1..|lines| - 1] + [last]))
  }

  lemma {:induction false} SplitJoin(lines: seq<string>)
    requires |lines| >= 1 && NoNewlines(lines)
    ensures Split(Join(lines)) == lines
    decreases |lines|
  {
    if |lines| == 1 {
      assert '\n' !in lines[0];
    } else {
      var s := Join(lines);
      var a := lines[0];
      assert '\n' !in a;
      assert s == a + "\n" + Join(lines[1..]);
      assert s[|a|] == '\n';
      assert '\n' in s;
      var i := FirstIndex(s, '\n');
      assert s[..|a|] == a;
      assert i == |a|;
      assert s[i + 1..] == Join(lines[1..]);
      SplitJoin(lines[1..]);
      assert Split(s) == [a] + lines[1..];
    }
  }

  lemma {:induction false} CountNewlinesAppend(a: string, b: string)
    ensures CountNewlines(a + b) == CountNewlines(a) + CountNewlines(b)
    decreases |a|
  {
    if |a| == 0 {
      assert a + b == b;
    } else {
      assert (a + b)[1..] == a[1..] + b;
      CountNewlinesAppend(a[1..], b);
    }
  }

  lemma {:induction false} NoNewlineCount(s: string)
    requires '\n' !in s
    ensures CountNewlines(s) == 0
    decreases |s|
  {
    if |s| > 0 {
      assert '\n' !in s[1..];
      NoNewlineCount(s[1..]);
    }
  }

  /** Joining `n` newline-free lines puts exactly `n - 1` newlines in the text. */
  lemma {:induction false} JoinNewlines(lines: seq<string>)
    requires |lines| >= 1 && NoNewlines(lines)
    ensures CountNewlines(Join(lines)) == |lines| - 1
    decreases |lines|
  {
    NoNewlineCount(lines[0]);
    if |lines| > 1 {
      assert Join(lines) == lines[0] + ("\n" + Join(lines[1..]));
      CountNewlinesAppend(lines[0], "\n" + Join(lines[1..]));
      CountNewlinesAppend("\n", Join(lines[1..]));
      assert CountNewlines("\n") == 1;
      JoinNewlines(lines[1..]);
    }
  }

  lemma NoNewlineSlice(s: string, i: nat, j: nat)
    requires '\n' !in s && i <= j <= |s|
    ensures '\n' !in s[i..j]
  {
  }

  /** A span on one line of an existing file yields the characters of that
      line at the columns `[lo.col, hi.col)` that the line has. */
  lemma ReadSpanSingleLine(span: Span, fs: FileSystem)
    requires ReachesLines(span, fs) && 1 <= span.lo.line == span.hi.line
    requires span.lo.line <= |fs[LocalPathOf(span.filename).value]|
    ensures var line := fs[LocalPathOf(span.filename).value][span.lo.line - 1];
            var a := Min(span.lo.col, |line|);
            var b := Min(span.hi.col, |line|);
            ReadSpanFromFile(span, fs) == Ok(if a <= b then line[a..b] else [])
  {
  }

  /** A span selecting `k >= 2` lines yields text that splits back, at its
      `k - 1` newlines, into the first line from `lo.col`, the middle lines
      verbatim and the last selected line cut at `hi.col`. */
  lemma ReadSpanMultiLine(span: Span, fs: FileSystem)
    requires WellFormedFiles(fs)
    requires ReachesLines(span, fs) && 1 <= span.lo.line <= span.hi.line
    requires var lines := SelectLines(fs[LocalPathOf(span.filename).value], span.lo, span.hi);
             |lines| >= 2
    ensures var lines := SelectLines(fs[LocalPathOf(span.filename).value], span.lo, span.hi);
            var r := ReadSpanFromFile(span, fs);
            && r.Ok?
            && Split(r.value) == [Skip(lines[0], span.lo.col)] + lines[1..|lines| - 1]
                                 + [Take(lines[|lines| - 1], span.hi.col)]
            && CountNewlines(r.value) == |lines| - 1
  {
    var file := fs[LocalPathOf(span.filename).value];
    var lines := SelectLines(file, span.lo, span.hi);
    var parts := [Skip(lines[0], span.lo.col)] + lines[1..|lines| - 1] + [Take(lines[|lines| - 1], span.hi.col)];
    assert NoNewlines(lines) by {
      forall i | 0 <= i < |lines|
        ensures '\n' !in lines[i]
      {
        assert lines[i] == file[Min(span.lo.line - 1, |file|) + i];
      }
    }
    assert NoNewlines(parts) by {
      NoNewlineSlice(lines[0], Min(span.lo.col, |lines[0]|), |lines[0]|);
      NoNewlineSlice(lines[|lines| - 1], 0, Min(span.hi.col, |lines[|lines| - 1]|));
      forall i | 0 <= i < |parts|
        ensures '\n' !in parts[i]
      {
        if 0 < i < |parts| - 1 {
          assert parts[i] == lines[i];
        }
      }
    }
    SplitJoin(parts);
    JoinNewlines(parts);
  }
}
