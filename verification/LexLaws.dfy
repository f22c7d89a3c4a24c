/** What the two views are, equation by equation: the cases are all the ways a source can begin, so
    together they determine both views of every source. */
module LexLaws {
  import opened Wrappers
  import opened Tokens
  import opened Views

  /** The views of a source that begins with a given token. */
  lemma ViewFront(t: Token, rest: string, blank: bool)
    requires t.WellFormed() && t.Before(rest)
    ensures View(Tokenize(t.Text() + rest), blank) == Show(t, blank) + View(Tokenize(rest), blank)
  {
    var src := t.Text() + rest;
    FirstOf(t, rest);
    assert src[|t.Text()|..] == rest;
    var ts := Tokenize(rest);
    assert Tokenize(src) == [t] + ts && ([t] + ts)[1..] == ts;
  }

  // ---------- code ----------

  /** A character that opens neither a comment nor a string stays as it is, in both views. */
  lemma CodeShows(c: char, rest: string)
    requires c != '"' && c != '\'' && c != '`'
    requires c == '/' && rest != "" ==> rest[0] != '/' && rest[0] != '*'
    ensures NoComments([c] + rest) == [c] + NoComments(rest)
    ensures NoStrings([c] + rest) == [c] + NoStrings(rest)
    ensures NoComments("") == "" && NoStrings("") == ""
  {
    ViewFront(Code(c), rest, false);
    ViewFront(Code(c), rest, true);
  }

  // ---------- comments ----------

  function Newlines(n: nat): string {
    seq(n, _ => '\n')
  }

  lemma {:induction false} KeepNewlinesCounts(s: string)
    ensures KeepNewlines(s) == Newlines(multiset(s)['\n'])
  {
    if s != "" {
      var init, c := s[..|s| - 1], s[|s| - 1];
      KeepNewlinesCounts(init);
      assert s == init + [c];
      assert multiset(s) == multiset(init) + multiset{c};
      if c == '\n' {
        assert KeepNewlines(s) == KeepNewlines(init) + "\n" == Newlines(multiset(init)['\n'] + 1);
      }
    }
  }

  /** A line comment is a blank, and the line's end is not part of it. */
  lemma LineShows(text: string, rest: string)
    requires '\n' !in text && (rest != "" ==> rest[0] == '\n')
    ensures NoComments("//" + text + rest) == " " + NoComments(rest)
    ensures NoStrings("//" + text + rest) == " " + NoStrings(rest)
  {
    ViewFront(LineComment(text), rest, false);
    ViewFront(LineComment(text), rest, true);
  }

  /** Nowhere in `body` does a comment end. */
  predicate NoEnd(body: string) {
    forall j :: 0 <= j < |body| - 1 ==> !(body[j] == '*' && body[j + 1] == '/')
  }

  /** A block comment is as many newlines as it has, and a blank. */
  lemma BlockShows(body: string, rest: string)
    requires NoEnd(body)
    ensures NoComments("/*" + body + "*/" + rest) == Newlines(multiset(body)['\n']) + " " + NoComments(rest)
    ensures NoStrings("/*" + body + "*/" + rest) == Newlines(multiset(body)['\n']) + " " + NoStrings(rest)
  {
    KeepNewlinesCounts(body);
    ViewFront(BlockComment(body, true), rest, false);
    ViewFront(BlockComment(body, true), rest, true);
  }

  /** So is one that never ends. */
  lemma OpenBlockShows(body: string)
    requires NoEnd(body)
    ensures NoComments("/*" + body) == NoStrings("/*" + body) == Newlines(multiset(body)['\n']) + " "
  {
    KeepNewlinesCounts(body);
    var t := BlockComment(body, false);
    assert t.Text() + "" == "/*" + body;
    ViewFront(t, "", false);
    ViewFront(t, "", true);
    assert Show(t, false) + "" == Show(t, false) == Show(t, true) + "";
  }

  // ---------- strings ----------

  predicate Quote(q: char) {
    q in {'"', '\'', '`'}
  }

  /** What a literal is made of: a character that is neither its quote nor a backslash, or a backslash
      and the character it escapes. */
  predicate Piece(quote: char, p: string) {
    (|p| == 1 && p[0] != quote && p[0] != '\\') || (|p| == 2 && p[0] == '\\')
  }

  function Concat(ps: seq<string>): string {
    if ps == [] then "" else ps[0] + Concat(ps[1..])
  }

  lemma {:induction false} PiecesStay(quote: char, ps: seq<string>, half: string)
    requires Quote(quote) && (forall i :: 0 <= i < |ps| ==> Piece(quote, ps[i])) && (half == "" || half == "\\")
    ensures StaysInside(quote, Concat(ps) + half, half == "")
    ensures StaysInside(quote, Concat(ps) + half, false)
  {
    var s := Concat(ps) + half;
    if ps == [] {
      assert s == half;
    } else {
      PiecesStay(quote, ps[1..], half);
      assert s[|ps[0]|..] == Concat(ps[1..]) + half;
      assert s[0] == ps[0][0];
    }
  }

  /** A string literal in any of the three quotes stays as it is in `noComments`, whatever looks like a
      comment or another quote in it; in `noStrings` its quotes alone are left. */
  lemma StringShows(quote: char, ps: seq<string>, rest: string)
    requires Quote(quote) && forall i :: 0 <= i < |ps| ==> Piece(quote, ps[i])
    ensures NoComments([quote] + Concat(ps) + [quote] + rest) == [quote] + Concat(ps) + [quote] + NoComments(rest)
    ensures NoStrings([quote] + Concat(ps) + [quote] + rest) == [quote, quote] + NoStrings(rest)
  {
    PiecesStay(quote, ps, "");
    assert Concat(ps) + "" == Concat(ps);
    ViewFront(Str(quote, Concat(ps), true), rest, false);
    ViewFront(Str(quote, Concat(ps), true), rest, true);
  }

  /** A literal that never ends runs to the end of the source, half an escape included. */
  lemma OpenStringShows(quote: char, ps: seq<string>, half: string)
    requires Quote(quote) && (forall i :: 0 <= i < |ps| ==> Piece(quote, ps[i])) && (half == "" || half == "\\")
    ensures NoComments([quote] + (Concat(ps) + half)) == [quote] + (Concat(ps) + half)
    ensures NoStrings([quote] + (Concat(ps) + half)) == [quote, quote]
  {
    PiecesStay(quote, ps, half);
    var t := Str(quote, Concat(ps) + half, false);
    assert t.Text() + "" == t.Text() == [quote] + (Concat(ps) + half);
    ViewFront(t, "", false);
    ViewFront(t, "", true);
    assert Show(t, false) + "" == Show(t, false) && Show(t, true) + "" == Show(t, true);
  }

  lemma {:induction false} CharsArePieces(quote: char, body: string) returns (ps: seq<string>)
    requires quote !in body && '\\' !in body
    ensures (forall i :: 0 <= i < |ps| ==> Piece(quote, ps[i])) && Concat(ps) == body
  {
    if body == "" {
      ps := [];
    } else {
      ps := CharsArePieces(quote, body[1..]);
      ps := [[body[0]]] + ps;
      assert ps[1..] == ps[1..] && [body[0]] + body[1..] == body;
    }
  }

  /** In particular for a text without its own quote and without backslashes. */
  lemma PlainStringShows(quote: char, body: string, rest: string)
    requires Quote(quote) && quote !in body && '\\' !in body
    ensures NoComments([quote] + body + [quote] + rest) == [quote] + body + [quote] + NoComments(rest)
    ensures NoStrings([quote] + body + [quote] + rest) == [quote, quote] + NoStrings(rest)
  {
    var ps := CharsArePieces(quote, body);
    StringShows(quote, ps, rest);
  }

  // ---------- one text after another ----------

  lemma BeforeMore(t: Token, s: string, more: string)
    requires t.Before(s) && s != ""
    ensures t.Before(s + more)
  {
    assert (s + more)[0] == s[0];
  }

  lemma UnlexHasText(ts: seq<Token>)
    requires ts != []
    ensures Unlex(ts) != ""
  {
  }

  lemma {:induction false} ValidConcat(ts: seq<Token>, us: seq<Token>)
    requires Valid(ts) && Valid(us) && (ts != [] ==> ts[|ts| - 1].Before(Unlex(us)))
    ensures Valid(ts + us) && Unlex(ts + us) == Unlex(ts) + Unlex(us)
  {
    hide Token.Text, Token.WellFormed, Token.Before;
    if ts == [] {
      assert ts + us == us && Unlex(ts) + Unlex(us) == Unlex(us);
    } else {
      var tail := ts[1..];
      ValidConcat(tail, us);
      assert (ts + us)[1..] == tail + us && (ts + us)[0] == ts[0];
      Assoc(ts[0].Text(), Unlex(tail), Unlex(us));
      if tail == [] {
        assert tail + us == us;
      } else {
        UnlexHasText(tail);
        BeforeMore(ts[0], Unlex(tail), Unlex(us));
      }
    }
  }

  lemma {:induction false} ViewConcat(ts: seq<Token>, us: seq<Token>, blank: bool)
    ensures View(ts + us, blank) == View(ts, blank) + View(us, blank)
  {
    hide Show;
    if ts == [] {
      assert ts + us == us && View(ts, blank) + View(us, blank) == View(us, blank);
    } else {
      ViewConcat(ts[1..], us, blank);
      assert (ts + us)[1..] == ts[1..] + us && (ts + us)[0] == ts[0];
      Assoc(Show(ts[0], blank), View(ts[1..], blank), View(us, blank));
    }
  }

  /** The views of two texts end to end are those of each, unless the last token of the first runs on
      into the second. */
  lemma TextsJoin(a: string, b: string)
    requires a != "" ==> Tokenize(a)[|Tokenize(a)| - 1].Before(b)
    ensures NoComments(a + b) == NoComments(a) + NoComments(b)
    ensures NoStrings(a + b) == NoStrings(a) + NoStrings(b)
  {
    var ts, us := Tokenize(a), Tokenize(b);
    TokenizeIsValid(a);
    TokenizeIsValid(b);
    ValidConcat(ts, us);
    TokenizeUnlex(ts + us);
    ViewConcat(ts, us, false);
    ViewConcat(ts, us, true);
  }
}
