/** The string handling the script borrows from Python: `str.isspace`,
    `str.splitlines`, `str.split()` with no separator, and `str.split('/')`. */
module Text {
  import opened Results
  import opened Seqs

  /** Python's `str.isspace` for one character. */
  predicate IsSpace(c: char)
  {
    || c == ' ' || c == '\t' || c == '\n' || c == '\U{0B}' || c == '\U{0C}' || c == '\r'
    || ('\U{1C}' <= c <= '\U{1F}')
    || c == '\U{85}' || c == '\U{A0}' || c == '\U{1680}'
    || ('\U{2000}' <= c <= '\U{200A}')
    || c == '\U{2028}' || c == '\U{2029}' || c == '\U{202F}' || c == '\U{205F}' || c == '\U{3000}'
  }

  /** A character that is not whitespace: what survives `str.split()`. */
  predicate IsVisible(c: char)
  {
    !IsSpace(c)
  }

  /** The line boundaries recognised by Python's `str.splitlines`; every one
      of them is also whitespace. */
  predicate IsLineBreak(c: char)
    ensures IsLineBreak(c) ==> IsSpace(c)
  {
    || c == '\n' || c == '\r' || c == '\U{0B}' || c == '\U{0C}'
    || c == '\U{1C}' || c == '\U{1D}' || c == '\U{1E}' || c == '\U{85}'
    || c == '\U{2028}' || c == '\U{2029}'
  }

  /** True when no character of `w` is whitespace. */
  predicate NoSpace(w: string)
  {
    forall i :: 0 <= i < |w| ==> !IsSpace(w[i])
  }

  /** True when every character of `w` is whitespace. */
  predicate AllSpace(w: string)
  {
    forall i :: 0 <= i < |w| ==> IsSpace(w[i])
  }

  /** True when `w` holds no line boundary. */
  predicate NoLineBreak(w: string)
  {
    forall i :: 0 <= i < |w| ==> !IsLineBreak(w[i])
  }

  /** The length of the longest prefix of `s` free of `stop` characters. */
  function SpanUntil(s: string, stop: char -> bool): (n: nat)
    ensures n <= |s|
    ensures forall i :: 0 <= i < n ==> !stop(s[i])
    ensures n < |s| ==> stop(s[n])
  {
    if s == [] || stop(s[0]) then 0 else 1 + SpanUntil(s[1..], stop)
  }

  /** The first element of `s.splitlines()`, or None when that list is empty
      (which happens exactly when `s` is empty). */
  function FirstLine(s: string): (r: Option<string>)
    ensures r.Some? <==> s != []
    ensures r.Some? ==> r.value <= s
    ensures r.Some? ==> forall i :: 0 <= i < |r.value| ==> !IsLineBreak(r.value[i])
    ensures r.Some? && |r.value| < |s| ==> IsLineBreak(s[|r.value|])
  {
    if s == [] then None else Some(s[..SpanUntil(s, IsLineBreak)])
  }

  /** A line free of line boundaries, followed by a boundary or by nothing,
      is the first line. */
  lemma FirstLineOf(line: string, more: string)
    requires NoLineBreak(line)
    requires more == [] || IsLineBreak(more[0])
    requires line + more != []
    ensures FirstLine(line + more) == Some(line)
  {
    var s := line + more;
    var n := SpanUntil(s, IsLineBreak);
    assert forall i :: 0 <= i < |line| ==> s[i] == line[i];
    assert more != [] ==> s[|line|] == more[0];
    assert n == |line|;
    assert s[..n] == line;
  }

  /** `s.split()`: the maximal runs of non-whitespace characters of `s`, in
      order. Each token is non-empty and free of whitespace, and together they
      spell `s` with its whitespace removed. */
  function Tokens(s: string): (r: seq<string>)
    ensures forall i :: 0 <= i < |r| ==> r[i] != [] && NoSpace(r[i])
    ensures Concat(r) == Filter(s, IsVisible)
    decreases |s|
  {
    if s == [] then []
    else if IsSpace(s[0]) then
      assert s == [s[0]] + s[1..];
      Tokens(s[1..])
    else
      var n := SpanUntil(s, IsSpace);
      assert s == s[..n] + s[n..];
      FilterAppend(s[..n], s[n..], IsVisible);
      FilterKeepsAll(s[..n], IsVisible);
      [s[..n]] + Tokens(s[n..])
  }

  /** The words of `ws` joined by single spaces, as `' '.join(ws)`. */
  function JoinSpaced(ws: seq<string>): string
  {
    if ws == [] then []
    else if |ws| == 1 then ws[0]
    else ws[0] + " " + JoinSpaced(ws[1..])
  }

  /** A word followed by whitespace (or by nothing) is the first token. */
  lemma TokensAfterWord(w: string, rest: string)
    requires w != [] && NoSpace(w)
    requires rest == [] || IsSpace(rest[0])
    ensures Tokens(w + rest) == [w] + Tokens(rest)
  {
    var s := w + rest;
    var n := SpanUntil(s, IsSpace);
    assert forall i :: 0 <= i < |w| ==> s[i] == w[i];
    assert rest != [] ==> s[|w|] == rest[0];
    assert n == |w|;
    assert s[..n] == w;
    assert s[n..] == rest;
  }

  /** Whitespace in front of a string adds no token. */
  lemma TokensSkipSpace(c: char, s: string)
    requires IsSpace(c)
    ensures Tokens([c] + s) == Tokens(s)
  {
    assert ([c] + s)[1..] == s;
  }

  /** A whole run of leading whitespace adds no token. */
  lemma {:induction false} TokensSkipSpaces(ws: string, s: string)
    requires AllSpace(ws)
    ensures Tokens(ws + s) == Tokens(s)
  {
    if ws == [] {
      assert ws + s == s;
    } else {
      assert ws + s == [ws[0]] + (ws[1..] + s);
      TokensSkipSpace(ws[0], ws[1..] + s);
      TokensSkipSpaces(ws[1..], s);
    }
  }

  /** Splitting words joined by single spaces gives the words back. */
  lemma {:induction false} TokensOfJoin(ws: seq<string>)
    requires forall i :: 0 <= i < |ws| ==> ws[i] != [] && NoSpace(ws[i])
    ensures Tokens(JoinSpaced(ws)) == ws
  {
    if ws == [] {
    } else if |ws| == 1 {
      TokensAfterWord(ws[0], []);
      assert ws[0] + [] == ws[0];
    } else {
      var tail := JoinSpaced(ws[1..]);
      assert ws[0] + " " + tail == ws[0] + (" " + tail);
      TokensAfterWord(ws[0], " " + tail);
      assert (" " + tail)[1..] == tail;
      TokensOfJoin(ws[1..]);
      assert ws == [ws[0]] + ws[1..];
    }
  }

  /** `name.split('/')[-1]`: the part of `name` after its last '/'. It holds
      no '/', it is a suffix of `name`, it is preceded by a '/' unless it is
      the whole name, and it is the whole name when `name` has no '/'. */
  function Basename(name: string): (b: string)
    ensures '/' !in b
    ensures |b| <= |name| && b == name[|name| - |b|..]
    ensures |b| < |name| ==> name[|name| - |b| - 1] == '/'
    ensures '/' !in name ==> b == name
  {
    if name == [] then []
    else if name[|name| - 1] == '/' then []
    else
      var init := name[..|name| - 1];
      assert name == init + [name[|name| - 1]];
      Basename(init) + [name[|name| - 1]]
  }

  /** The base name of `dir/base` is `base`, whatever `dir` holds. */
  lemma {:induction false} BasenameOfPath(dir: string, base: string)
    requires '/' !in base
    ensures Basename(dir + "/" + base) == base
  {
    var name := dir + "/" + base;
    var b := Basename(name);
    assert name[|name| - |base| - 1] == '/';
    assert forall i :: 0 <= i < |base| ==> name[|name| - |base| + i] == base[i];
    assert |b| == |base|;
    assert name[|name| - |base|..] == base;
  }
}
