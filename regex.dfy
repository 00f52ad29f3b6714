/** The fragment of Python's `re` that `search_regex` relies on: `re.escape`,
    the reading of the resulting pattern `'^' + re.escape(q) + '$'`, and
    `pattern.match(line)`. Only patterns made of anchors and literal
    characters are given a meaning; any other construct is reported as
    unsupported, which an escaped query never produces. */
module Regex {
  import opened Builtins

  /** The characters `re.escape` puts a backslash in front of. */
  const Special: set<char> := {
    '(', ')', '[', ']', '{', '}', '?', '*', '+', '-', '|', '^', '$', '\\', '.',
    '&', '~', '#', ' ', '\t', '\n', '\r', '\U{0B}', '\U{0C}'
  }

  /** Unescaped characters that start a construct other than a literal. */
  const Operators: set<char> := {'(', ')', '[', ']', '{', '}', '?', '*', '+', '|', '.', '\\'}

  predicate IsAsciiAlnum(c: char)
  {
    'a' <= c <= 'z' || 'A' <= c <= 'Z' || '0' <= c <= '9'
  }

  /** `re.escape(q)`. */
  function Escape(q: string): string
  {
    if q == [] then [] else (if q[0] in Special then ['\\', q[0]] else [q[0]]) + Escape(q[1..])
  }

  /** The pattern `search_regex` builds from a query. */
  function AnchoredPattern(q: string): string
  {
    "^" + Escape(q) + "$"
  }

  datatype Token = Begin | End | Lit(c: char)

  function Cons(t: Token, ts: Option<seq<Token>>): Option<seq<Token>>
  {
    match ts
    case None => None
    case Some(rest) => Some([t] + rest)
  }

  /** How the regex parser reads a pattern built from anchors and literals:
      `^` and `$` are anchors, a backslash before a non-alphanumeric
      character makes it literal, and other ordinary characters are literal. */
  function Tokenize(p: string): Option<seq<Token>>
  {
    if p == [] then Some([])
    else if p[0] == '\\' then
      if |p| >= 2 && !IsAsciiAlnum(p[1]) then Cons(Lit(p[1]), Tokenize(p[2..])) else None
    else if p[0] == '^' then Cons(Begin, Tokenize(p[1..]))
    else if p[0] == '$' then Cons(End, Tokenize(p[1..]))
    else if p[0] in Operators then None
    else Cons(Lit(p[0]), Tokenize(p[1..]))
  }

  function Lits(q: string): (ts: seq<Token>)
    ensures |ts| == |q|
  {
    if q == [] then [] else [Lit(q[0])] + Lits(q[1..])
  }

  /** `match` of the token sequence against `s` from position `pos`. Without
      MULTILINE, `^` matches only at position 0 and `$` at the end of the
      string or just before a line feed that ends it. */
  function MatchAt(ts: seq<Token>, s: string, pos: nat): bool
    requires pos <= |s|
    decreases |ts|
  {
    if ts == [] then true
    else match ts[0]
      case Begin => pos == 0 && MatchAt(ts[1..], s, pos)
      case End => (pos == |s| || (pos == |s| - 1 && s[pos] == '\n')) && MatchAt(ts[1..], s, pos)
      case Lit(c) => pos < |s| && s[pos] == c && MatchAt(ts[1..], s, pos + 1)
  }

  /** Escaping makes every character of the query a literal: the parser
      reads back exactly the query. */
  lemma {:induction false} TokenizeEscape(q: string, rest: string)
    ensures Tokenize(Escape(q) + rest) == (match Tokenize(rest) case None => None case Some(ts) => Some(Lits(q) + ts))
    decreases |q|
  {
    if q == [] {
      assert Escape(q) + rest == rest;
      match Tokenize(rest) {
        case None =>
        case Some(ts) => assert Lits(q) + ts == ts;
      }
    } else {
      var c := q[0];
      var p := Escape(q) + rest;
      TokenizeEscape(q[1..], rest);
      if c in Special {
        assert p == ['\\', c] + (Escape(q[1..]) + rest);
        assert p[2..] == Escape(q[1..]) + rest;
      } else {
        assert p == [c] + (Escape(q[1..]) + rest);
        assert p[1..] == Escape(q[1..]) + rest;
      }
      match Tokenize(rest) {
        case None =>
        case Some(ts) => assert Lits(q) + ts == [Lit(c)] + (Lits(q[1..]) + ts);
      }
    }
  }

  /** The compiled form of `'^' + re.escape(q) + '$'`. */
  lemma TokenizeAnchored(q: string)
    ensures Tokenize(AnchoredPattern(q)) == Some([Begin] + Lits(q) + [End])
  {
    var p := AnchoredPattern(q);
    assert p == ['^'] + (Escape(q) + "$");
    assert p[1..] == Escape(q) + "$";
    assert Tokenize("$") == Some([End]) by {
      assert "$"[0] == '$' && "$"[1..] == [];
      assert Tokenize([]) == Some([]);
      assert [End] + [] == [End];
    }
    TokenizeEscape(q, "$");
    assert [Begin] + (Lits(q) + [End]) == [Begin] + Lits(q) + [End];
  }

  lemma {:induction false} MatchLitsEnd(q: string, s: string, pos: nat)
    requires pos <= |s|
    ensures MatchAt(Lits(q) + [End], s, pos) <==> (s[pos..] == q || s[pos..] == q + "\n")
    decreases |q|
  {
    if q == [] {
      assert Lits(q) + [End] == [End];
      assert [End][1..] == [];
    } else {
      var ts := Lits(q) + [End];
      assert ts[0] == Lit(q[0]) && ts[1..] == Lits(q[1..]) + [End];
      if pos < |s| && s[pos] == q[0] {
        assert s[pos..] == [s[pos]] + s[pos + 1..];
        assert q == [q[0]] + q[1..];
        assert q + "\n" == [q[0]] + (q[1..] + "\n");
        MatchLitsEnd(q[1..], s, pos + 1);
      } else if pos < |s| {
        assert s[pos..][0] != q[0];
      }
    }
  }

  /** `re.match('^' + re.escape(q) + '$', s)` succeeds exactly when `s` is
      `q`, or `q` followed by one final line feed. */
  lemma MatchAnchored(q: string, s: string)
    ensures MatchAt([Begin] + Lits(q) + [End], s, 0) <==> (s == q || s == q + "\n")
  {
    var ts := [Begin] + Lits(q) + [End];
    assert ts[0] == Begin && ts[1..] == Lits(q) + [End];
    MatchLitsEnd(q, s, 0);
    assert s[0..] == s;
  }
}
