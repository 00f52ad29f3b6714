/** The corpus file as every search strategy sees it during one call: a
    snapshot of the file system entry at the configured path, and the way
    Python's text-mode iteration cuts its content into lines. */
module Files {
  import opened Builtins

  /** What a path names at the moment of the call. A regular file carries
      its decoded text and whether its bytes were valid UTF-8 (when they were
      not, `text` is what `errors="ignore"` decoding leaves). `Unreadable` is
      a regular file that `open` refuses with `PermissionError`, such as one
      without read permission: it exists and is a file, but has no text. */
  datatype Entry = Missing | Directory | Unreadable | Regular(text: string, validUtf8: bool)

  type FileSystem = map<string, Entry>

  function Lookup(fs: FileSystem, path: string): Entry
  {
    if path in fs then fs[path] else Missing
  }

  /** `Path(path).is_file()`, which only looks at the entry's type. */
  predicate IsFile(fs: FileSystem, path: string)
  {
    Lookup(fs, path).Regular? || Lookup(fs, path).Unreadable?
  }

  /** `open(path)` succeeds and yields the file's content. */
  predicate Readable(fs: FileSystem, path: string)
  {
    Lookup(fs, path).Regular?
  }

  /** `os.path.exists(path)`. */
  predicate PathExists(fs: FileSystem, path: string)
  {
    !Lookup(fs, path).Missing?
  }

  const NL: set<char> := {'\n'}
  const CRLF: set<char> := {'\r', '\n'}

  /** A line as the file iterator yields it: not empty, and a line feed, if
      any, only as its last character. */
  predicate IsRawLine(l: string)
  {
    l != [] && forall j :: 0 <= j < |l| - 1 ==> l[j] != '\n'
  }

  /** Length of the first line of `t`, its terminating line feed included. */
  function LineEnd(t: string): (k: nat)
    requires t != []
    ensures 0 < k <= |t|
    ensures forall i :: 0 <= i < k - 1 ==> t[i] != '\n'
    ensures k < |t| ==> t[k - 1] == '\n'
    decreases |t|
  {
    if t[0] == '\n' || |t| == 1 then 1 else 1 + LineEnd(t[1..])
  }

  /** `list(f)` for a text file `f` with content `t`: each line keeps its
      line feed, the last line may lack one, and a final line feed does not
      start an extra empty line. */
  function RawLines(t: string): (ls: seq<string>)
    ensures (ls == []) == (t == [])
    ensures forall i :: 0 <= i < |ls| ==> IsRawLine(ls[i])
    ensures forall i :: 0 <= i < |ls| - 1 ==> |ls[i]| > 0 && ls[i][|ls[i]| - 1] == '\n'
    decreases |t|
  {
    if t == [] then [] else [t[..LineEnd(t)]] + RawLines(t[LineEnd(t)..])
  }

  /** `line.rstrip('\n')`. */
  function StripNL(l: string): string
  {
    RStrip(l, NL)
  }

  /** The lines of `t` with their terminators removed, in file order. */
  function Lines(t: string): (ls: seq<string>)
    ensures |ls| == |RawLines(t)|
    decreases |t|
  {
    if t == [] then [] else [StripNL(t[..LineEnd(t)])] + Lines(t[LineEnd(t)..])
  }

  /** Line `i` is line `i` of the iterator with `rstrip('\n')` applied. */
  lemma {:induction false} LinesAt(t: string, i: nat)
    requires i < |RawLines(t)|
    ensures Lines(t)[i] == StripNL(RawLines(t)[i])
    decreases |t|
  {
    if i > 0 {
      LinesAt(t[LineEnd(t)..], i - 1);
    }
  }

  /** On a line from the iterator, `rstrip('\n')` removes exactly the
      terminator: one line feed, or nothing on an unterminated last line. */
  lemma StripNLRawLine(l: string)
    requires IsRawLine(l)
    ensures l[|l| - 1] == '\n' ==> StripNL(l) == l[..|l| - 1]
    ensures l[|l| - 1] != '\n' ==> StripNL(l) == l
    ensures '\n' !in StripNL(l)
  {
    if l[|l| - 1] == '\n' {
      RStripUnique(l, NL, l[..|l| - 1]);
    } else {
      RStripKeeps(l, NL);
    }
  }

  /** A stripped line never contains a line feed. */
  lemma LinesHaveNoNL(t: string, i: nat)
    requires i < |Lines(t)|
    ensures '\n' !in Lines(t)[i]
  {
    LinesAt(t, i);
    StripNLRawLine(RawLines(t)[i]);
  }

  /** An unterminated non-empty last line is a line of its own. */
  lemma RawLinesLast(l: string)
    requires l != [] && '\n' !in l
    ensures RawLines(l) == [l]
    ensures Lines(l) == [l]
  {
    var k := LineEnd(l);
    assert k == |l|;
    assert l[..k] == l && l[k..] == [];
    RStripKeeps(l, NL);
  }

  /** The text of a file written as the lines `ls`, each followed by `"\n"`. */
  function JoinLines(ls: seq<string>): string
  {
    if ls == [] then [] else ls[0] + "\n" + JoinLines(ls[1..])
  }

  /** Stripped lines of a text that starts with the line `l`. */
  lemma LinesCons(l: string, rest: string)
    requires '\n' !in l
    ensures Lines(l + "\n" + rest) == [l] + Lines(rest)
  {
    var t := l + "\n" + rest;
    assert t[|l|] == '\n';
    assert LineEnd(t) == |l| + 1;
    assert t[..|l| + 1] == l + "\n" && t[|l| + 1..] == rest;
    assert (l + "\n")[..|l|] == l;
    RStripUnique(l + "\n", NL, l);
  }

  /** Writing lines with a terminator after each and reading the file back
      gives exactly those lines: the final line feed adds no empty line. */
  lemma {:induction false} LinesOfJoin(ls: seq<string>)
    requires forall i :: 0 <= i < |ls| ==> '\n' !in ls[i]
    ensures Lines(JoinLines(ls)) == ls
  {
    if ls == [] {
      assert Lines([]) == [];
    } else {
      LinesCons(ls[0], JoinLines(ls[1..]));
      LinesOfJoin(ls[1..]);
      assert ls == [ls[0]] + ls[1..];
    }
  }

  /** A file whose last line has no terminator reads back the same way. */
  lemma {:induction false} LinesOfUnterminated(ls: seq<string>, last: string)
    requires forall i :: 0 <= i < |ls| ==> '\n' !in ls[i]
    requires last != [] && '\n' !in last
    ensures Lines(JoinLines(ls) + last) == ls + [last]
  {
    if ls == [] {
      assert JoinLines(ls) + last == last;
      RawLinesLast(last);
    } else {
      var head, rest := ls[0], ls[1..];
      assert ls + [last] == [head] + (rest + [last]);
      var tail := JoinLines(rest) + last;
      assert JoinLines(ls) == head + "\n" + JoinLines(rest);
      assert JoinLines(ls) + last == head + "\n" + tail;
      assert '\n' !in head;
      LinesCons(head, tail);
      LinesOfUnterminated(rest, last);
    }
  }

  /** `needle` occurs in `hay` starting at `at`. */
  predicate OccursAt(needle: string, hay: string, at: nat)
  {
    at + |needle| <= |hay| && hay[at..at + |needle|] == needle
  }

  /** Whatever starts an occurrence occurs at the same place. */
  lemma OccursPrefix(needle: string, hay: string, at: nat, p: string)
    requires OccursAt(needle, hay, at) && p <= needle
    ensures OccursAt(p, hay, at)
  {
    assert hay[at..at + |p|] == hay[at..at + |needle|][..|p|];
  }

  /** An occurrence moves along with text put in front. */
  lemma OccursShift(needle: string, hay: string, at: nat, front: string)
    requires OccursAt(needle, hay, at)
    ensures OccursAt(needle, front + hay, |front| + at)
  {
    assert (front + hay)[|front| + at..|front| + at + |needle|] == hay[at..at + |needle|];
  }

  /** A character missing from the text is missing from every piece of it. */
  lemma AbsentFromPiece(c: char, needle: string, hay: string, at: nat)
    requires OccursAt(needle, hay, at) && c !in hay
    ensures c !in needle
  {
    assert forall j :: 0 <= j < |needle| ==> needle[j] == hay[at + j];
  }

  /** Every line the iterator yields is a contiguous piece of the file. */
  lemma {:induction false} RawLineOccurs(t: string, i: nat) returns (at: nat)
    requires i < |RawLines(t)|
    ensures OccursAt(RawLines(t)[i], t, at)
    decreases |t|
  {
    var k := LineEnd(t);
    var tail := t[k..];
    assert RawLines(t) == [t[..k]] + RawLines(tail);
    if i == 0 {
      at := 0;
    } else {
      var l := RawLines(tail)[i - 1];
      assert RawLines(t)[i] == l;
      var rest := RawLineOccurs(tail, i - 1);
      OccursInSuffix(l, t, k, rest);
      at := k + rest;
    }
  }

  /** An occurrence in a suffix of the text is an occurrence in the text. */
  lemma OccursInSuffix(needle: string, t: string, k: nat, at: nat)
    requires k <= |t| && OccursAt(needle, t[k..], at)
    ensures OccursAt(needle, t, k + at)
  {
    assert t[k..][at..at + |needle|] == t[k + at..k + at + |needle|];
  }

  /** Every stripped line is a contiguous piece of the file. */
  lemma LineOccurs(t: string, i: nat) returns (at: nat)
    requires i < |Lines(t)|
    ensures OccursAt(Lines(t)[i], t, at)
  {
    var raw := RawLines(t)[i];
    var l := Lines(t)[i];
    LinesAt(t, i);
    StripNLRawLine(raw);
    at := RawLineOccurs(t, i);
    assert raw[..|l|] == l;
    assert t[at..at + |l|] == raw[..|l|];
  }
}
