/** C strings in fixed buffers, and the tokens `strtok_r` finds in them. */
module CStrings {
  const NUL := '\0'
  const NL := '\n'

  /** The string that starts at the front of a buffer: everything before the first NUL, or all of it. */
  function CStr(s: seq<char>): (t: seq<char>)
    ensures |t| <= |s| && NUL !in t
  {
    if s == [] || s[0] == NUL then [] else [s[0]] + CStr(s[1..])
  }

  /** `strlcpy` into `size` bytes. */
  function Copied(s: seq<char>, size: nat): (t: seq<char>)
    requires size > 0
  {
    var t := CStr(s);
    if |t| < size then t else t[..size - 1]
  }

  /** All lines of a text, empty ones included. */
  function Lines(t: seq<char>): (ls: seq<seq<char>>)
    ensures ls != []
  {
    if t == [] then [[]]
    else if t[0] == NL then [[]] + Lines(t[1..])
    else var ls := Lines(t[1..]); [[t[0]] + ls[0]] + ls[1..]
  }

  function NonEmpty(ls: seq<seq<char>>): (r: seq<seq<char>>) {
    if ls == [] then [] else (if ls[0] == [] then [] else [ls[0]]) + NonEmpty(ls[1..])
  }

  /** What a tokeniser over newlines must yield: the non-empty lines, in order. */
  function Tokens(t: seq<char>): seq<seq<char>> { NonEmpty(Lines(t)) }

  lemma {:induction false} SkipNewline(t: seq<char>)
    requires t != [] && t[0] == NL
    ensures Tokens(t) == Tokens(t[1..])
  {
    assert Lines(t)[1..] == Lines(t[1..]);
  }

  /** A line followed by a newline or the end of the text is the first token. */
  lemma {:induction false} FirstLine(l: seq<char>, rest: seq<char>)
    requires NL !in l && (rest != [] ==> rest[0] == NL)
    ensures Lines(l + rest) == [l] + (if rest == [] then [] else Lines(rest[1..]))
  {
    if l == [] {
      assert l + rest == rest;
    } else {
      FirstLine(l[1..], rest);
      assert (l + rest)[1..] == l[1..] + rest;
      assert [l[0]] + l[1..] == l;
    }
  }

  lemma {:induction false} FirstToken(l: seq<char>, rest: seq<char>)
    requires l != [] && NL !in l && (rest != [] ==> rest[0] == NL)
    ensures Tokens(l + rest) == [l] + (if rest == [] then [] else Tokens(rest[1..]))
  {
    FirstLine(l, rest);
    var ls := Lines(l + rest);
    assert Tokens(l + rest) == [l] + NonEmpty(ls[1..]);
    if rest == [] {
      assert ls[1..] == [];
    } else {
      assert ls[1..] == Lines(rest[1..]);
    }
  }

  /** A buffer whose first NUL is at `n`, or that starts with other characters. */
  lemma {:induction false} CStrAt(s: seq<char>, n: nat)
    requires n <= |s| && (n < |s| ==> s[n] == NUL) && forall i :: 0 <= i < n ==> s[i] != NUL
    ensures CStr(s) == s[..n]
  {
    if n > 0 {
      CStrAt(s[1..], n - 1);
    }
  }

  lemma {:induction false} CStrSkips(s: seq<char>, n: nat)
    requires n <= |s| && forall i :: 0 <= i < n ==> s[i] != NUL
    ensures CStr(s) == s[..n] + CStr(s[n..])
  {
    if n > 0 {
      CStrSkips(s[1..], n - 1);
      assert s[1..][n - 1..] == s[n..];
      assert s[..n] == [s[0]] + s[1..][..n - 1];
    } else {
      assert s[0..] == s;
    }
  }

  /** The first token of the text at `tok`, when it runs up to `end`, and the text behind it. */
  lemma {:induction false} TokenAt(m: seq<char>, tok: nat, end: nat)
    requires tok < end < |m| && (m[end] == NUL || m[end] == NL)
    requires forall i :: tok <= i < end ==> m[i] != NUL && m[i] != NL
    ensures Tokens(CStr(m[tok..])) == [m[tok..end]] + (if m[end] == NUL then [] else Tokens(CStr(m[end + 1..])))
  {
    var l, rest := m[tok..end], CStr(m[end..]);
    CStrSkips(m[tok..], end - tok);
    assert m[tok..][..end - tok] == l && m[tok..][end - tok..] == m[end..];
    assert m[end..][1..] == m[end + 1..];
    FirstToken(l, rest);
  }

  /** Lines one after the other, each ended by a newline. */
  function Text(ls: seq<seq<char>>): seq<char> {
    if ls == [] then [] else ls[0] + [NL] + Text(ls[1..])
  }

  /** What a tokeniser can give back: no line is empty or holds a newline or NUL. */
  ghost predicate Plain(ls: seq<seq<char>>) {
    forall i :: 0 <= i < |ls| ==> ls[i] != [] && NL !in ls[i] && NUL !in ls[i]
  }

  /** The tokens of lines written down are the lines. */
  lemma {:induction false} TokensOfText(ls: seq<seq<char>>)
    requires Plain(ls)
    ensures Tokens(Text(ls)) == ls && NUL !in Text(ls)
  {
    if ls != [] {
      var rest := [NL] + Text(ls[1..]);
      TokensOfText(ls[1..]);
      FirstToken(ls[0], rest);
      assert Text(ls) == ls[0] + rest && rest[1..] == Text(ls[1..]);
    }
  }

  method SkipNewlines(buf: array<char>, start: nat) returns (tok: nat)
    requires start < buf.Length && buf[buf.Length - 1] == NUL
    ensures start <= tok < buf.Length && buf[tok] != NL
    ensures Tokens(CStr(buf[tok..])) == Tokens(CStr(buf[start..]))
  {
    tok := start;
    while buf[tok] == NL
      invariant start <= tok < buf.Length
      invariant Tokens(CStr(buf[tok..])) == Tokens(CStr(buf[start..]))
      decreases buf.Length - tok
    {
      SkipNewline(CStr(buf[tok..]));
      assert buf[tok..][1..] == buf[tok + 1..];
      tok := tok + 1;
    }
  }

  method LineEnd(buf: array<char>, tok: nat) returns (end: nat)
    requires tok < buf.Length && buf[buf.Length - 1] == NUL
    ensures tok <= end < buf.Length && (buf[end] == NUL || buf[end] == NL)
    ensures forall i :: tok <= i < end ==> buf[i] != NUL && buf[i] != NL
  {
    end := tok;
    while buf[end] != NUL && buf[end] != NL
      invariant tok <= end < buf.Length
      invariant forall i :: tok <= i < end ==> buf[i] != NUL && buf[i] != NL
      decreases buf.Length - end
    {
      end := end + 1;
    }
  }

  /** One call of `strtok_r`: it skips newlines, cuts the token off in place, and remembers where to go on. */
  method StrTok(buf: array<char>, start: nat) returns (found: bool, tok: nat, end: nat, next: nat)
    requires start < buf.Length && buf[buf.Length - 1] == NUL
    modifies buf
    ensures buf[buf.Length - 1] == NUL && start <= tok <= end < buf.Length && tok <= next < buf.Length
    ensures found <==> old(Tokens(CStr(buf[start..]))) != []
    ensures found ==> old(Tokens(CStr(buf[start..]))) == [buf[tok..end]] + Tokens(CStr(buf[next..])) && tok < next
    ensures found ==> buf[end] == NUL && forall i :: tok <= i < end ==> buf[i] != NUL
  {
    tok := SkipNewlines(buf, start);
    end, next := tok, tok;
    found := buf[tok] != NUL;
    if found {
      end := LineEnd(buf, tok);
      TokenAt(buf[..], tok, end);
      ghost var l, tail := buf[tok..end], if end + 1 < buf.Length then buf[end + 1..] else [];
      assert buf[..][tok..] == buf[tok..] && buf[..][tok..end] == l;
      next := end;
      if buf[end] == NL {
        assert buf[..][end + 1..] == tail;
        buf[end] := NUL;
        next := end + 1;
        assert buf[next..] == tail;
      }
      assert buf[tok..end] == l;
    }
  }
}
