/** The interchangeable search strategies of `src/search/search_algorithms.py`.
    Each answers "is this query one complete line of the file" against the
    snapshot of the file system taken for the call, except `SearchMmap`,
    which answers "does the query occur anywhere in the file". */
module Search {
  import opened Builtins
  import opened Files
  import Regex

  /** Why `search_mmap` wraps an error into `RuntimeError`: `open` fails on a
      directory (`CannotOpen`) or on a file it may not read (`OpenDenied`),
      and `mmap` refuses a file of length zero. */
  datatype MmapFailure = CannotOpen | OpenDenied | EmptyMapping

  /** The exceptions the strategies raise, with the messages the source gives. */
  datatype SearchError =
    | FileNotFoundError(message: string)
    | ValueError(message: string)
    | IsADirectoryError
    | PermissionError(filename: string)
    | RuntimeError(cause: MmapFailure)

  function NotFoundMessage(path: string): string
  {
    "Search file not found: " + path
  }

  /** `load_lines(path)`: the set of the file's lines without their line
      feeds; anything but a regular file raises `FileNotFoundError`, and a
      regular file `open` refuses raises `PermissionError`. */
  function LoadLines(fs: FileSystem, path: string): (r: Result<set<string>, SearchError>)
    ensures r.Ok? <==> Readable(fs, path)
    ensures !IsFile(fs, path) ==> r == Err(FileNotFoundError(NotFoundMessage(path)))
    ensures Lookup(fs, path).Unreadable? ==> r == Err(PermissionError(path))
  {
    match Lookup(fs, path)
    case Regular(text, _) => Ok(set l | l in Lines(text))
    case Unreadable => Err(PermissionError(path))
    case _ => Err(FileNotFoundError(NotFoundMessage(path)))
  }

  /** `search_cached(lines, query)`. */
  predicate SearchCached(lines: set<string>, query: string)
  {
    query in lines
  }

  /** A lookup in the loaded set is a lookup among the file's lines. */
  lemma LoadLinesMember(fs: FileSystem, path: string, query: string)
    requires Readable(fs, path)
    ensures SearchCached(LoadLines(fs, path).value, query) <==> query in Lines(Lookup(fs, path).text)
  {
  }

  /** A file written as the lines `ls`, one line feed after each, loads as
      exactly the set of those lines: duplicates collapse, and the final line
      feed contributes no empty line. */
  lemma LoadLinesOfWrittenFile(fs: FileSystem, path: string, ls: seq<string>, valid: bool)
    requires forall i :: 0 <= i < |ls| ==> '\n' !in ls[i]
    requires Lookup(fs, path) == Regular(JoinLines(ls), valid)
    ensures LoadLines(fs, path) == Ok(set l | l in ls)
    ensures "" in LoadLines(fs, path).value <==> "" in ls
  {
    LinesOfJoin(ls);
  }

  /** `search_dynamic(path, query)`: re-reads the file and stops at the first
      line equal to the query. It answers exactly what a lookup in the set
      `load_lines` builds answers, and fails the same way. */
  method SearchDynamic(fs: FileSystem, path: string, query: string) returns (r: Result<bool, SearchError>)
    ensures LoadLines(fs, path).Err? ==> r == Err(LoadLines(fs, path).error)
    ensures LoadLines(fs, path).Ok? ==> r == Ok(SearchCached(LoadLines(fs, path).value, query))
  {
    var entry := Lookup(fs, path);
    if !IsFile(fs, path) {
      return Err(FileNotFoundError(NotFoundMessage(path)));
    }
    if !entry.Regular? {
      return Err(PermissionError(path));
    }
    LoadLinesMember(fs, path, query);
    var found := ScanLines(entry.text, query);
    return Ok(found);
  }

  /** The loop of `search_dynamic`: compare each iterated line, stripped of
      its line feed, with the query, and stop at the first equal one. */
  method ScanLines(text: string, query: string) returns (found: bool)
    ensures found <==> query in Lines(text)
  {
    var lines := RawLines(text);
    var i := 0;
    while i < |lines|
      invariant 0 <= i <= |lines|
      invariant forall k :: 0 <= k < i ==> Lines(text)[k] != query
    {
      LinesAt(text, i);
      if StripNL(lines[i]) == query {
        return true;
      }
      i := i + 1;
    }
    return false;
  }

  /** `search_regex(path, query)`: the same scan, testing each stripped line
      with `re.match('^' + re.escape(query) + '$', line)`. A missing file and
      undecodable content both become `ValueError`; opening a directory raises
      `IsADirectoryError` and opening a file it may not read `PermissionError`,
      neither of which the function catches. */
  method SearchRegex(fs: FileSystem, path: string, query: string) returns (r: Result<bool, SearchError>)
    ensures Lookup(fs, path).Missing? ==> r == Err(ValueError("Search file not found at " + path))
    ensures Lookup(fs, path).Directory? ==> r == Err(IsADirectoryError)
    ensures Lookup(fs, path).Unreadable? ==> r == Err(PermissionError(path))
    ensures Lookup(fs, path).Regular? && !Lookup(fs, path).validUtf8 ==>
              r == Err(ValueError("File contains invalid UTF-8 characters"))
    ensures Lookup(fs, path).Regular? && Lookup(fs, path).validUtf8 ==>
              r == Ok(SearchCached(LoadLines(fs, path).value, query))
  {
    var compiled := Regex.Tokenize(Regex.AnchoredPattern(query));
    Regex.TokenizeAnchored(query);
    var pattern := compiled.value;
    var entry := Lookup(fs, path);
    match entry {
      case Missing =>
        return Err(ValueError("Search file not found at " + path));
      case Directory =>
        return Err(IsADirectoryError);
      case Unreadable =>
        return Err(PermissionError(path));
      case Regular(text, valid) =>
        if !valid {
          return Err(ValueError("File contains invalid UTF-8 characters"));
        }
        LoadLinesMember(fs, path, query);
        var found := MatchLines(text, query, pattern);
        return Ok(found);
    }
  }

  /** The scan of `search_regex`: each line of the file, stripped of its
      line feed, is matched against the compiled pattern until one matches. */
  method MatchLines(text: string, query: string, pattern: seq<Regex.Token>) returns (found: bool)
    requires Regex.Tokenize(Regex.AnchoredPattern(query)) == Some(pattern)
    ensures found <==> query in Lines(text)
  {
    var lines := RawLines(text);
    var i := 0;
    while i < |lines|
      invariant 0 <= i <= |lines|
      invariant forall k :: 0 <= k < i ==> Lines(text)[k] != query
    {
      RegexMatchesLine(text, i, query, pattern);
      if Regex.MatchAt(pattern, StripNL(lines[i]), 0) {
        return true;
      }
      i := i + 1;
    }
    return false;
  }

  /** The anchored pattern of a query matches a stripped line exactly when
      the line is the query: a stripped line has no line feed for `$` to
      match before. */
  lemma RegexMatchesLine(text: string, i: nat, query: string, pattern: seq<Regex.Token>)
    requires i < |RawLines(text)|
    requires Regex.Tokenize(Regex.AnchoredPattern(query)) == Some(pattern)
    ensures Regex.MatchAt(pattern, StripNL(RawLines(text)[i]), 0) <==> Lines(text)[i] == query
  {
    Regex.TokenizeAnchored(query);
    LinesAt(text, i);
    LinesHaveNoNL(text, i);
    Regex.MatchAnchored(query, Lines(text)[i]);
  }

  /** `bytes.find(needle)` started at `from`: the first position at or after
      `from` where `needle` occurs, or -1. */
  function Find(hay: string, needle: string, from: nat): (r: int)
    ensures r == -1 || (from <= r && OccursAt(needle, hay, r))
    ensures r == -1 ==> forall at :: from <= at ==> !OccursAt(needle, hay, at)
    ensures r != -1 ==> forall at :: from <= at < r ==> !OccursAt(needle, hay, at)
    decreases |hay| - from
  {
    if from + |needle| > |hay| then -1
    else if hay[from..from + |needle|] == needle then from
    else Find(hay, needle, from + 1)
  }

  /** `search_mmap(path, query)`: a raw substring search over the whole
      file, not a line match. */
  function SearchMmap(fs: FileSystem, path: string, query: string): (r: Result<bool, SearchError>)
    ensures Lookup(fs, path).Missing? ==> r == Err(ValueError(NotFoundMessage(path)))
    ensures Lookup(fs, path).Directory? ==> r == Err(RuntimeError(CannotOpen))
    ensures Lookup(fs, path).Unreadable? ==> r == Err(RuntimeError(OpenDenied))
    ensures Lookup(fs, path).Regular? && Lookup(fs, path).text == [] ==> r == Err(RuntimeError(EmptyMapping))
    ensures Lookup(fs, path).Regular? && Lookup(fs, path).text != [] ==> r.Ok?
    ensures r.Ok? ==> (r.value <==> exists at :: OccursAt(query, Lookup(fs, path).text, at))
  {
    match Lookup(fs, path)
    case Missing => Err(ValueError(NotFoundMessage(path)))
    case Directory => Err(RuntimeError(CannotOpen))
    case Unreadable => Err(RuntimeError(OpenDenied))
    case Regular(text, _) =>
      if text == [] then Err(RuntimeError(EmptyMapping)) else Ok(Find(text, query, 0) != -1)
  }

  /** `search_mmap` answers containment: whatever starts a line of the
      file is found, a whole line included. */
  lemma MmapFindsLinePrefix(fs: FileSystem, path: string, query: string, k: nat)
    requires Readable(fs, path)
    requires k < |Lines(Lookup(fs, path).text)| && query <= Lines(Lookup(fs, path).text)[k]
    ensures SearchMmap(fs, path, query) == Ok(true)
  {
    var text := Lookup(fs, path).text;
    var line := Lines(text)[k];
    var at := LineOccurs(text, k);
    OccursPrefix(line, text, at, query);
  }

  /** Every exact-line hit is an mmap hit: a line is a piece of the file. */
  lemma MmapImpliedByExactLine(fs: FileSystem, path: string, query: string)
    requires LoadLines(fs, path).Ok? && SearchCached(LoadLines(fs, path).value, query)
    ensures SearchMmap(fs, path, query) == Ok(true)
  {
    var text := Lookup(fs, path).text;
    assert query in Lines(text);
    var k :| 0 <= k < |Lines(text)| && Lines(text)[k] == query;
    MmapFindsLinePrefix(fs, path, query, k);
  }

  /** The converse fails: with a file whose only line is `abc`, the query
      `ab` is no line of it, yet mmap finds it. */
  lemma MmapNotExactLine()
    ensures var fs := map["corpus.txt" := Regular("abc", true)];
            LoadLines(fs, "corpus.txt") == Ok({"abc"}) &&
            !SearchCached(LoadLines(fs, "corpus.txt").value, "ab") &&
            SearchMmap(fs, "corpus.txt", "ab") == Ok(true)
  {
    var fs := map["corpus.txt" := Regular("abc", true)];
    RawLinesLast("abc");
    SetOfOne("abc");
    MmapFindsLinePrefix(fs, "corpus.txt", "ab", 0);
  }

  /** Whole-line equality, not containment: with lines `ab` and `abc`, the
      query `ab` matches the first line only and `a` matches neither, while
      mmap finds `a`. */
  lemma ExactLineSemantics()
    ensures var fs := map["corpus.txt" := Regular("ab\nabc\n", true)];
            LoadLines(fs, "corpus.txt") == Ok({"ab", "abc"}) &&
            SearchCached(LoadLines(fs, "corpus.txt").value, "ab") &&
            !SearchCached(LoadLines(fs, "corpus.txt").value, "a") &&
            SearchMmap(fs, "corpus.txt", "a") == Ok(true)
  {
    var fs := map["corpus.txt" := Regular("ab\nabc\n", true)];
    var ls := ["ab", "abc"];
    assert JoinLines(ls) == "ab\nabc\n" by {
      assert JoinLines(["abc"]) == "abc\n" by {
        assert ["abc"][1..] == [];
      }
      assert ls[1..] == ["abc"];
    }
    LoadLinesOfWrittenFile(fs, "corpus.txt", ls, true);
    SetOfTwo("ab", "abc");
    LinesOfJoin(ls);
    MmapFindsLinePrefix(fs, "corpus.txt", "a", 0);
  }

  lemma SetOfOne(a: string)
    ensures (set l | l in [a]) == {a}
  {
    assert a in [a];
  }

  lemma SetOfTwo(a: string, b: string)
    ensures (set l | l in [a, b]) == {a, b}
  {
    assert a in [a, b] && b in [a, b];
  }

  // ---------------------------------------------------------------------
  // How `linecache` reads a file: through `tokenize.open`, which looks for
  // a byte order mark and a coding declaration before decoding.

  /** U+FEFF, what the UTF-8 byte order mark `EF BB BF` decodes to. */
  const Bom: char := '\U{FEFF}'

  predicate StartsWithBom(t: string)
  {
    t != [] && t[0] == Bom
  }

  /** A leading byte order mark selects `utf-8-sig`, which drops it. */
  function DropBom(t: string): (r: string)
    ensures !StartsWithBom(t) ==> r == t
    ensures StartsWithBom(t) ==> [Bom] + r == t
  {
    if StartsWithBom(t) then t[1..] else t
  }

  /** The characters of `[-\w.]` under `re.ASCII`. */
  predicate IsNameChar(c: char)
  {
    Regex.IsAsciiAlnum(c) || c == '_' || c == '-' || c == '.'
  }

  /** The index of the first character at or after `i` that is not in `cs`. */
  function SkipOver(l: string, i: nat, cs: set<char>): (j: nat)
    requires i <= |l|
    ensures i <= j <= |l| && (j < |l| ==> l[j] !in cs)
    ensures forall k :: i <= k < j ==> l[k] in cs
    decreases |l| - i
  {
    if i < |l| && l[i] in cs then SkipOver(l, i + 1, cs) else i
  }

  /** The longest run of name characters starting at `i`. */
  function NameRun(l: string, i: nat): (r: string)
    requires i <= |l|
    ensures i + |r| <= |l| && r == l[i..i + |r|]
    ensures forall k :: 0 <= k < |r| ==> IsNameChar(r[k])
    ensures i + |r| == |l| || !IsNameChar(l[i + |r|])
    decreases |l| - i
  {
    if i < |l| && IsNameChar(l[i]) then [l[i]] + NameRun(l, i + 1) else []
  }

  /** `.*?coding[:=][ \t]*([-\w.]+)` matched from `i`: the shortest lead-in
      after which the rest matches decides, and the group is the name run. */
  function CookieFrom(l: string, i: nat): Option<string>
    requires i <= |l|
    decreases |l| - i
  {
    if i + 7 > |l| then None
    else
      var j := SkipOver(l, i + 7, {' ', '\t'});
      if l[i..i + 6] == "coding" && l[i + 6] in {':', '='} && j < |l| && IsNameChar(l[j])
      then Some(NameRun(l, j))
      else CookieFrom(l, i + 1)
  }

  /** `cookie_re.match(line)`: blanks, `#`, then a coding declaration. */
  function CodingCookie(l: string): Option<string>
  {
    var i := SkipOver(l, 0, {' ', '\t', '\U{0C}'});
    if i < |l| && l[i] == '#' then CookieFrom(l, i + 1) else None
  }

  /** `blank_re.match(line)`: blanks, then a comment, a line end or nothing. */
  predicate BlankOrComment(l: string)
  {
    var i := SkipOver(l, 0, {' ', '\t', '\U{0C}'});
    i == |l| || l[i] in {'#', '\r', '\n'}
  }

  /** A comment line `#coding:<name>` declares exactly `<name>`, and a line
      that does not start with a comment declares nothing. */
  lemma CodingCookieNames(name: string, l: string)
    requires name != [] && forall k :: 0 <= k < |name| ==> IsNameChar(name[k])
    requires l != [] && l[0] !in {' ', '\t', '\U{0C}', '#'}
    ensures CodingCookie("#coding:" + name) == Some(name)
    ensures CodingCookie(l) == None
  {
    var d := "#coding:" + name;
    assert SkipOver(d, 0, {' ', '\t', '\U{0C}'}) == 0;
    assert d[1..7] == "coding" && d[7] == ':';
    assert SkipOver(d, 8, {' ', '\t'}) == 8 by {
      assert d[8] == name[0];
    }
    var r := NameRun(d, 8);
    assert d[8..] == name;
    assert r == name;
    assert CookieFrom(d, 1) == Some(r);
    assert SkipOver(l, 0, {' ', '\t', '\U{0C}'}) == 0;
  }

  /** `tokenize.detect_encoding`'s search for a PEP 263 declaration: in the
      first line (after the byte order mark) or, when that line is blank or
      a comment, in the second. */
  function DeclaredEncoding(t: string): Option<string>
  {
    var ls := RawLines(DropBom(t));
    if ls == [] then None
    else if CodingCookie(ls[0]).Some? then CodingCookie(ls[0])
    else if BlankOrComment(ls[0]) && |ls| > 1 then CodingCookie(ls[1])
    else None
  }

  /** `linecache` adds a line feed to an unterminated last line. */
  function Terminated(raw: seq<string>): (ls: seq<string>)
    requires forall i :: 0 <= i < |raw| ==> raw[i] != []
    ensures |ls| == |raw|
    ensures forall k :: 0 <= k < |raw| - 1 ==> ls[k] == raw[k]
    ensures raw != [] ==> var l := raw[|raw| - 1];
              ls[|raw| - 1] == if l[|l| - 1] == '\n' then l else l + "\n"
  {
    if raw != [] && raw[|raw| - 1][|raw[|raw| - 1]| - 1] != '\n'
    then raw[..|raw| - 1] + [raw[|raw| - 1] + "\n"]
    else raw
  }

  /** What `linecache` holds for a path: `readlines()` of the file decoded
      as `utf-8-sig`, with a line feed added to an unterminated last line;
      no lines at all when the path cannot be read as UTF-8 text (a
      directory, a file `open` refuses, undecodable bytes): `updatecache`
      swallows the `OSError` or `UnicodeDecodeError`. */
  function CachedLines(e: Entry): (ls: seq<string>)
    ensures forall i :: 0 <= i < |ls| ==> |ls[i]| > 0 && ls[i][|ls[i]| - 1] == '\n'
    ensures e.Regular? && e.validUtf8 ==> |ls| == |RawLines(DropBom(e.text))|
    ensures !(e.Regular? && e.validUtf8) ==> ls == []
  {
    match e
    case Regular(text, true) => Terminated(RawLines(DropBom(text)))
    case _ => []
  }

  /** `linecache.getline(path, n)`: line `n` (from 1), or `""` out of range. */
  function GetLine(lines: seq<string>, n: int): string
  {
    if 1 <= n <= |lines| then lines[n - 1] else ""
  }

  /** `s.rstrip('\r\n')`. */
  function StripCRLF(s: string): string
  {
    RStrip(s, CRLF)
  }

  /** Some cached line, stripped of trailing CR/LF, equals the query stripped
      the same way. */
  predicate LinecacheHit(lines: seq<string>, query: string)
  {
    exists k :: 0 <= k < |lines| && StripCRLF(lines[k]) == StripCRLF(query)
  }

  /** A name `linecache` never reads: the empty name, and a name of the
      form `<...>`, which it reserves for code that has no file. */
  predicate ReservedName(path: string)
  {
    path == [] || (path[0] == '<' && path[|path| - 1] == '>')
  }

  /** The lines `linecache` holds for a path: none for a reserved name,
      otherwise those read from its entry. */
  function LinecacheLines(fs: FileSystem, path: string): (ls: seq<string>)
    ensures ReservedName(path) ==> ls == []
    ensures !ReservedName(path) ==> ls == CachedLines(Lookup(fs, path))
    ensures forall i :: 0 <= i < |ls| ==> |ls[i]| > 0 && ls[i][|ls[i]| - 1] == '\n'
  {
    if ReservedName(path) then [] else CachedLines(Lookup(fs, path))
  }

  /** What `search_linecache` returns or raises. */
  function Linecache(fs: FileSystem, path: string, query: string): Result<bool, SearchError>
  {
    if !PathExists(fs, path) then Err(ValueError("File not found: " + path))
    else Ok(LinecacheHit(LinecacheLines(fs, path), query))
  }

  /** `search_linecache(path, query)`: reads line 1, 2, ... through
      `getline` until it gets the empty string that marks the end. The ghost
      result counts the `getline` calls: a line in range is never empty, so
      the loop stops after at most one call more than there are lines. */
  method SearchLinecache(fs: FileSystem, path: string, query: string) returns (r: Result<bool, SearchError>, ghost calls: nat)
    ensures r == Linecache(fs, path, query)
    ensures calls <= |LinecacheLines(fs, path)| + 1
  {
    calls := 0;
    if !PathExists(fs, path) {
      return Err(ValueError("File not found: " + path)), calls;
    }
    var found;
    found, calls := ScanCache(LinecacheLines(fs, path), query);
    return Ok(found), calls;
  }

  /** The `while True` loop of `search_linecache` over the lines `linecache`
      holds for the path, which stay the same for the whole call. */
  method ScanCache(lines: seq<string>, query: string) returns (found: bool, ghost calls: nat)
    requires forall k :: 0 <= k < |lines| ==> lines[k] != []
    ensures found == LinecacheHit(lines, query)
    ensures calls <= |lines| + 1
  {
    calls := 0;
    var lineNumber := 1;
    var q := StripCRLF(query);
    while true
      invariant 1 <= lineNumber <= |lines| + 1
      invariant calls == lineNumber - 1
      invariant forall k :: 0 <= k < lineNumber - 1 ==> StripCRLF(lines[k]) != q
      decreases |lines| + 1 - lineNumber
    {
      var rawLine := GetLine(lines, lineNumber);
      calls := calls + 1;
      var line := StripCRLF(rawLine);
      if rawLine == [] {
        break;
      }
      if line == q {
        return true, calls;
      }
      lineNumber := lineNumber + 1;
    }
    return false, calls;
  }

  /** Each cached line is the iterator's line, or the unterminated last line
      with a line feed added. */
  lemma CachedLinesShape(text: string, k: nat)
    requires !StartsWithBom(text)
    requires k < |RawLines(text)|
    ensures |CachedLines(Regular(text, true))| == |RawLines(text)|
    ensures var l := RawLines(text)[k];
            CachedLines(Regular(text, true))[k] == l ||
            (l[|l| - 1] != '\n' && CachedLines(Regular(text, true))[k] == l + "\n")
  {
    var raw := RawLines(text);
    assert DropBom(text) == text;
    var ls := CachedLines(Regular(text, true));
    assert ls == Terminated(raw);
    if k < |raw| - 1 {
      assert ls[k] == raw[k];
    }
  }

  /** Without carriage returns, `rstrip('\r\n')` and `rstrip('\n')` agree on
      a line from the iterator. */
  lemma StripCRLFRawLine(l: string)
    requires IsRawLine(l) && '\r' !in l
    ensures StripCRLF(l) == StripNL(l)
    ensures l[|l| - 1] != '\n' ==> StripCRLF(l + "\n") == StripNL(l)
  {
    StripNLRawLine(l);
    RStripUnique(l, CRLF, StripNL(l));
    if l[|l| - 1] != '\n' {
      RStripAppend(l, "\n", CRLF);
    }
  }

  /** On a file without carriage returns, `rstrip('\r\n')` of a cached line
      is the line as `load_lines` stores it. */
  lemma CachedLineStripped(text: string, k: nat)
    requires !StartsWithBom(text) && DeclaredEncoding(text).None?
    requires '\r' !in text
    requires k < |RawLines(text)|
    ensures |CachedLines(Regular(text, true))| == |RawLines(text)|
    ensures StripCRLF(CachedLines(Regular(text, true))[k]) == Lines(text)[k]
  {
    var l := RawLines(text)[k];
    var at := RawLineOccurs(text, k);
    AbsentFromPiece('\r', l, text, at);
    CachedLinesShape(text, k);
    StripCRLFRawLine(l);
    LinesAt(text, k);
  }

  /** `search_linecache` agrees with the set lookup on a readable file without
      carriage returns, for a query that does not end in CR or LF. */
  lemma LinecacheAgreesWithCached(fs: FileSystem, path: string, query: string)
    requires !ReservedName(path)
    requires Lookup(fs, path).Regular? && Lookup(fs, path).validUtf8
    requires !StartsWithBom(Lookup(fs, path).text) && DeclaredEncoding(Lookup(fs, path).text).None?
    requires '\r' !in Lookup(fs, path).text
    requires query == [] || query[|query| - 1] !in CRLF
    ensures Linecache(fs, path, query) == Ok(SearchCached(LoadLines(fs, path).value, query))
  {
    var text := Lookup(fs, path).text;
    var lines := CachedLines(Lookup(fs, path));
    RStripKeeps(query, CRLF);
    if LinecacheHit(lines, query) {
      var k :| 0 <= k < |lines| && StripCRLF(lines[k]) == StripCRLF(query);
      CachedLineStripped(text, k);
      assert Lines(text)[k] == query;
    }
    if SearchCached(LoadLines(fs, path).value, query) {
      var k :| 0 <= k < |Lines(text)| && Lines(text)[k] == query;
      CachedLineStripped(text, k);
    }
  }

  /** The two readers disagree on a file that starts with a byte order
      mark: `load_lines` keeps U+FEFF at the head of the first line, while
      `linecache` decodes as `utf-8-sig` and drops it. A one-line file
      `EF BB BF` followed by `l` is a hit for `l` only through `linecache`. */
  lemma LinecacheBomDiffers(fs: FileSystem, path: string, l: string)
    requires !ReservedName(path)
    requires l != [] && '\n' !in l && '\r' !in l
    requires Lookup(fs, path) == Regular([Bom] + l, true)
    ensures LoadLines(fs, path) == Ok({[Bom] + l})
    ensures !SearchCached(LoadLines(fs, path).value, l)
    ensures Linecache(fs, path, l) == Ok(true)
  {
    var t := [Bom] + l;
    assert '\n' !in t by {
      assert forall j :: 1 <= j < |t| ==> t[j] == l[j - 1];
    }
    RawLinesLast(t);
    SetOfOne(t);
    assert DropBom(t) == l;
    RawLinesLast(l);
    RStripAppend(l, "\n", CRLF);
    RStripKeeps(l, CRLF);
    assert CachedLines(Lookup(fs, path))[0] == l + "\n";
  }

  /** `search_linecache` ignores trailing CR/LF on the query, which the set
      lookup does not: `"abc\r\n"` hits the line `abc` there. */
  lemma LinecacheIgnoresQueryTerminators(lines: seq<string>, query: string, tail: string)
    requires forall j :: 0 <= j < |tail| ==> tail[j] in CRLF
    ensures LinecacheHit(lines, query + tail) == LinecacheHit(lines, query)
  {
    RStripAppend(query, tail, CRLF);
  }

  /** A directory exists, so `search_linecache` does not raise for it; the
      cache finds no lines and the answer is false. */
  lemma LinecacheOnDirectory(fs: FileSystem, path: string, query: string)
    requires Lookup(fs, path).Directory?
    ensures Linecache(fs, path, query) == Ok(false)
    ensures LoadLines(fs, path).Err?
  {
  }

  /** A regular file whose name has the form `<...>` passes the existence
      check, but `linecache` does not read it, so `search_linecache` answers
      false whatever the file holds; `load_lines` reads it. A file `<c>`
      holding the line `abc` is a hit for `abc` only through `load_lines`. */
  lemma LinecacheReservedName(fs: FileSystem, path: string, query: string)
    requires ReservedName(path) && PathExists(fs, path)
    ensures Linecache(fs, path, query) == Ok(false)
    ensures var fs' := map["<c>" := Regular("abc\n", true)];
            SearchCached(LoadLines(fs', "<c>").value, "abc") &&
            Linecache(fs', "<c>", "abc") == Ok(false)
  {
    var fs' := map["<c>" := Regular("abc\n", true)];
    LoadLinesOfWrittenFile(fs', "<c>", ["abc"], true);
    assert JoinLines(["abc"]) == "abc\n" by {
      assert ["abc"][1..] == [];
    }
    assert "<c>"[0] == '<' && "<c>"[2] == '>';
  }

  /** A regular file that `open` refuses passes both existence checks, so
      the strategies fail while reading: `load_lines` and `search_dynamic`
      with `PermissionError`, `search_mmap` with `RuntimeError`, while
      `linecache` swallows the error and answers false. */
  lemma UnreadableFile(fs: FileSystem, path: string, query: string)
    requires Lookup(fs, path).Unreadable?
    ensures IsFile(fs, path) && PathExists(fs, path)
    ensures LoadLines(fs, path) == Err(PermissionError(path))
    ensures SearchMmap(fs, path, query) == Err(RuntimeError(OpenDenied))
    ensures Linecache(fs, path, query) == Ok(false)
  {
  }
}
