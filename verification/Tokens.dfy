/** The token grammar behind the mechanism guard's lexer (tools/check-mechanism-guards.mjs). */
module Tokens {
  import opened Wrappers

  datatype Token =
    | Code(c: char)
    | LineComment(text: string)
    | BlockComment(body: string, closed: bool)
    | Str(quote: char, body: string, closed: bool)
  {
    /** The source text of the token. */
    function Text(): string {
      match this
      case Code(c) => [c]
      case LineComment(text) => "//" + text
      case BlockComment(body, closed) => "/*" + body + (if closed then "*/" else "")
      case Str(quote, body, closed) => [quote] + body + (if closed then [quote] else "")
    }

    predicate WellFormed() {
      match this
      case Code(c) => !IsQuote(c)
      case LineComment(text) => '\n' !in text
      case BlockComment(body, _) => forall j :: 0 <= j < |body| - 1 ==> !(body[j] == '*' && body[j + 1] == '/')
      case Str(quote, body, closed) => IsQuote(quote) && StaysInside(quote, body, closed)
    }

    /** What may come after the token for it to end where it does. */
    predicate Before(rest: string) {
      match this
      case Code(c) => c == '/' && rest != "" ==> rest[0] != '/' && rest[0] != '*'
      case LineComment(_) => rest != "" ==> rest[0] == '\n'
      case BlockComment(_, closed) => !closed ==> rest == ""
      case Str(_, _, closed) => !closed ==> rest == ""
    }
  }

  predicate IsQuote(c: char) {
    c == '"' || c == '\'' || c == '`'
  }

  /** No unescaped quote in `s`; only an unterminated string may end in half an escape. */
  predicate StaysInside(quote: char, s: string, closed: bool) {
    if s == "" then true
    else if s[0] == '\\' then (if |s| == 1 then !closed else StaysInside(quote, s[2..], closed))
    else s[0] != quote && StaysInside(quote, s[1..], closed)
  }

  function Unlex(ts: seq<Token>): string {
    if ts == [] then "" else ts[0].Text() + Unlex(ts[1..])
  }

  predicate Valid(ts: seq<Token>) {
    ts == [] || (ts[0].WellFormed() && ts[0].Before(Unlex(ts[1..])) && Valid(ts[1..]))
  }

  // ---------- cutting a source into tokens ----------

  /** Characters before the end of the line. */
  function LineLength(s: string): (n: nat)
    ensures n <= |s|
  {
    if s == "" || s[0] == '\n' then 0 else 1 + LineLength(s[1..])
  }

  /** Characters before the first comment end, all of them when there is none. */
  function BlockLength(s: string): (n: nat)
    ensures n <= |s| && (n < |s| ==> n + 2 <= |s| && s[n] == '*' && s[n + 1] == '/')
  {
    if s == "" || (|s| > 1 && s[0] == '*' && s[1] == '/') then 0 else 1 + BlockLength(s[1..])
  }

  /** Characters before the first unescaped quote, all of them when there is none. */
  function StringLength(quote: char, s: string): (n: nat)
    ensures n <= |s| && (n < |s| ==> s[n] == quote)
  {
    if s == "" then 0
    else if s[0] == '\\' then (if |s| == 1 then 1 else 2 + StringLength(quote, s[2..]))
    else if s[0] == quote then 0
    else 1 + StringLength(quote, s[1..])
  }

  predicate StartsComment(src: string, second: char) {
    |src| > 1 && src[0] == '/' && src[1] == second
  }

  function First(src: string): (t: Token)
    requires src != ""
    ensures 0 < |t.Text()| <= |src|
  {
    if StartsComment(src, '/') then
      LineComment(src[2..][..LineLength(src[2..])])
    else if StartsComment(src, '*') then
      var n := BlockLength(src[2..]);
      BlockComment(src[2..][..n], n < |src[2..]|)
    else if IsQuote(src[0]) then
      var n := StringLength(src[0], src[1..]);
      Str(src[0], src[1..][..n], n < |src[1..]|)
    else
      Code(src[0])
  }

  function Tokenize(src: string): seq<Token>
    decreases |src|
  {
    if src == "" then [] else var t := First(src); [t] + Tokenize(src[|t.Text()|..])
  }

  // ---------- the cut is the grammar's one and only reading ----------

  lemma {:induction false} LineLengthIff(s: string, n: nat)
    requires n <= |s|
    ensures n == LineLength(s) <==> '\n' !in s[..n] && (n < |s| ==> s[n] == '\n')
  {
    if s != "" && s[0] != '\n' {
      if n > 0 {
        LineLengthIff(s[1..], n - 1);
        assert s[..n] == [s[0]] + s[1..][..n - 1];
      }
    } else if n > 0 {
      assert s[..n][0] == s[0];
    }
  }

  lemma {:induction false} BlockLengthMisses(s: string, j: nat)
    requires j < BlockLength(s) && j + 1 < |s|
    ensures !(s[j] == '*' && s[j + 1] == '/')
  {
    if j > 0 {
      BlockLengthMisses(s[1..], j - 1);
    }
  }

  lemma {:induction false} BlockLengthOf(body: string, rest: string)
    requires BlockComment(body, true).WellFormed()
    requires rest == "" || "*/" <= rest
    ensures BlockLength(body + rest) == |body|
  {
    if body == "" {
      assert body + rest == rest;
    } else {
      var s := body + rest;
      assert s[1..] == body[1..] + rest;
      BlockLengthOf(body[1..], rest);
      assert |body| > 1 ==> s[1] == body[1];
    }
  }

  lemma {:induction false} StringLengthStays(quote: char, s: string)
    requires IsQuote(quote)
    ensures StaysInside(quote, s[..StringLength(quote, s)], StringLength(quote, s) < |s|)
    decreases |s|
  {
    var n := StringLength(quote, s);
    if s == "" || (s[0] != '\\' && s[0] == quote) {
    } else if s[0] == '\\' {
      if |s| > 1 {
        StringLengthStays(quote, s[2..]);
        assert s[..n][2..] == s[2..][..n - 2];
      } else {
        assert s[..n] == s;
      }
    } else {
      StringLengthStays(quote, s[1..]);
      assert s[..n][1..] == s[1..][..n - 1];
    }
  }

  lemma {:induction false} StringLengthOf(quote: char, body: string, rest: string, closed: bool)
    requires IsQuote(quote) && StaysInside(quote, body, closed)
    requires if closed then [quote] <= rest else rest == ""
    ensures StringLength(quote, body + rest) == |body|
    decreases |body|
  {
    var s := body + rest;
    if body == "" {
      assert s == rest;
    } else if body[0] == '\\' {
      if |body| > 1 {
        assert s[2..] == body[2..] + rest;
        StringLengthOf(quote, body[2..], rest, closed);
      }
    } else {
      assert s[1..] == body[1..] + rest;
      StringLengthOf(quote, body[1..], rest, closed);
    }
  }

  lemma SplitAt(src: string, n: nat)
    requires n <= |src|
    ensures src[..n] + src[n..] == src
  {
  }

  lemma LineText(src: string, n: nat)
    requires StartsComment(src, '/') && n <= |src| - 2
    ensures LineComment(src[2..][..n]).Text() == src[..2 + n] && src[2..][n..] == src[2 + n..]
  {
  }

  lemma BlockText(src: string, n: nat, closed: bool)
    requires StartsComment(src, '*') && n <= |src| - 2
    requires if closed then n + 4 <= |src| && src[n + 2] == '*' && src[n + 3] == '/' else n == |src| - 2
    ensures BlockComment(src[2..][..n], closed).Text() == src[..if closed then n + 4 else n + 2]
  {
    assert "/*" + src[2..][..n] == src[..2 + n];
    if closed {
      assert src[..2 + n] + "*/" == src[..4 + n];
    }
  }

  lemma StringText(src: string, n: nat, closed: bool)
    requires src != "" && n <= |src| - 1
    requires if closed then n + 2 <= |src| && src[n + 1] == src[0] else n == |src| - 1
    ensures Str(src[0], src[1..][..n], closed).Text() == src[..if closed then n + 2 else n + 1]
  {
    assert [src[0]] + src[1..][..n] == src[..1 + n];
    if closed {
      assert src[..1 + n] + [src[0]] == src[..2 + n];
    }
  }

  /** The first token of each kind: its text is a prefix, and it ends where its grammar says. */
  lemma LineIsFirst(src: string)
    requires StartsComment(src, '/')
    ensures var t := First(src); |t.Text()| <= |src| && t.Text() == src[..|t.Text()|]
    ensures First(src).WellFormed() && First(src).Before(src[|First(src).Text()|..])
  {
    var n := LineLength(src[2..]);
    LineLengthIff(src[2..], n);
    LineText(src, n);
  }

  lemma BlockIsFirst(src: string)
    requires StartsComment(src, '*')
    ensures var t := First(src); |t.Text()| <= |src| && t.Text() == src[..|t.Text()|]
    ensures First(src).WellFormed() && First(src).Before(src[|First(src).Text()|..])
  {
    var n := BlockLength(src[2..]);
    forall j | 0 <= j < n && j + 1 < |src[2..]| {
      BlockLengthMisses(src[2..], j);
    }
    BlockText(src, n, n < |src[2..]|);
  }

  lemma StringIsFirst(src: string)
    requires src != "" && IsQuote(src[0])
    ensures var t := First(src); |t.Text()| <= |src| && t.Text() == src[..|t.Text()|]
    ensures First(src).WellFormed() && First(src).Before(src[|First(src).Text()|..])
  {
    hide StaysInside;
    var n := StringLength(src[0], src[1..]);
    StringLengthStays(src[0], src[1..]);
    StringText(src, n, n < |src[1..]|);
  }

  lemma FirstIsValid(src: string)
    requires src != ""
    ensures var t := First(src);
      t.Text() + src[|t.Text()|..] == src && t.WellFormed() && t.Before(src[|t.Text()|..])
  {
    if StartsComment(src, '/') {
      LineIsFirst(src);
    } else if StartsComment(src, '*') {
      BlockIsFirst(src);
    } else if IsQuote(src[0]) {
      StringIsFirst(src);
    }
    SplitAt(src, |First(src).Text()|);
  }

  lemma FirstOfLine(text: string, rest: string)
    requires LineComment(text).WellFormed() && LineComment(text).Before(rest)
    ensures First("//" + text + rest) == LineComment(text)
  {
    var tail := text + rest;
    Assoc("//", text, rest);
    assert ("//" + tail)[2..] == tail && tail[..|text|] == text;
    LineLengthIff(tail, |text|);
    assert StartsComment("//" + tail, '/');
  }

  lemma FirstOfBlock(body: string, closed: bool, rest: string)
    requires BlockComment(body, closed).WellFormed() && BlockComment(body, closed).Before(rest)
    ensures First(BlockComment(body, closed).Text() + rest) == BlockComment(body, closed)
  {
    var close := if closed then "*/" else "";
    var tail := body + (close + rest);
    assert BlockComment(body, closed).Text() + rest == "/*" + tail;
    BlockLengthOf(body, close + rest);
    assert ("/*" + tail)[2..] == tail && tail[..|body|] == body;
    assert StartsComment("/*" + tail, '*') && !StartsComment("/*" + tail, '/');
  }

  lemma FirstOfString(quote: char, body: string, closed: bool, rest: string)
    requires Str(quote, body, closed).WellFormed() && Str(quote, body, closed).Before(rest)
    ensures First(Str(quote, body, closed).Text() + rest) == Str(quote, body, closed)
  {
    hide First, StringLength, StaysInside;
    var close := if closed then [quote] else "";
    var tail := body + (close + rest);
    assert Str(quote, body, closed).Text() + rest == [quote] + tail;
    StringLengthOf(quote, body, close + rest, closed);
    FirstOfQuoted(quote, tail);
    assert tail[..|body|] == body && (|body| < |tail| <==> closed);
  }

  lemma FirstOfStarred(src: string)
    requires StartsComment(src, '*')
    ensures First(src) == BlockComment(src[2..][..BlockLength(src[2..])], BlockLength(src[2..]) < |src[2..]|)
  {
  }

  lemma BlockTextLength(body: string, closed: bool)
    ensures |BlockComment(body, closed).Text()| == 2 + |body| + (if closed then 2 else 0)
  {
  }

  lemma FirstOfQuoted(quote: char, tail: string)
    requires IsQuote(quote)
    ensures First([quote] + tail) ==
      Str(quote, tail[..StringLength(quote, tail)], StringLength(quote, tail) < |tail|)
  {
    assert ([quote] + tail)[1..] == tail;
  }

  lemma FirstOf(t: Token, rest: string)
    requires t.WellFormed() && t.Before(rest)
    ensures t.Text() + rest != "" && First(t.Text() + rest) == t
  {
    match t
    case Code(c) =>
    case LineComment(text) => FirstOfLine(text, rest);
    case BlockComment(body, closed) => FirstOfBlock(body, closed, rest);
    case Str(quote, body, closed) => FirstOfString(quote, body, closed, rest);
  }

  /** Every source splits exactly into valid tokens. */
  lemma {:induction false} TokenizeIsValid(src: string)
    ensures Valid(Tokenize(src)) && Unlex(Tokenize(src)) == src
    decreases |src|
  {
    if src != "" {
      FirstIsValid(src);
      TokenizeIsValid(src[|First(src).Text()|..]);
    }
  }

  /** The split is unique: any valid token list is read back from its own text. */
  lemma {:induction false} TokenizeUnlex(ts: seq<Token>)
    requires Valid(ts)
    ensures Tokenize(Unlex(ts)) == ts
  {
    if ts != [] {
      var t, rest := ts[0], Unlex(ts[1..]);
      FirstOf(t, rest);
      assert (t.Text() + rest)[|t.Text()|..] == rest;
      TokenizeUnlex(ts[1..]);
    }
  }
}
