/** The two views the lexer renders, and why stripping is stable. */
module Views {
  import opened Wrappers
  import opened Tokens

  function KeepNewlines(s: string): string {
    if s == "" then ""
    else if s[|s| - 1] == '\n' then KeepNewlines(s[..|s| - 1]) + "\n"
    else KeepNewlines(s[..|s| - 1])
  }

  /** One token as it shows in a view: comments become blanks (keeping a block's newlines), and
      string contents are dropped when `blank` is set. */
  function Show(t: Token, blank: bool): string {
    match t
    case Code(c) => [c]
    case LineComment(_) => " "
    case BlockComment(body, _) => KeepNewlines(body) + " "
    case Str(quote, _, _) => if blank then [quote, quote] else t.Text()
  }

  /** The view of a token list: `noStrings` when `blank` is set, `noComments` otherwise. */
  function View(ts: seq<Token>, blank: bool): string {
    if ts == [] then "" else Show(ts[0], blank) + View(ts[1..], blank)
  }

  function NoComments(src: string): string {
    View(Tokenize(src), false)
  }

  function NoStrings(src: string): string {
    View(Tokenize(src), true)
  }

  // ---------- views as token lists ----------

  function AsCode(s: string): seq<Token> {
    if s == "" then [] else [Code(s[0])] + AsCode(s[1..])
  }

  /** The tokens of a token's own view. */
  function Simplify(t: Token, blank: bool): seq<Token> {
    match t
    case Code(_) => [t]
    case LineComment(_) => AsCode(" ")
    case BlockComment(body, _) => AsCode(KeepNewlines(body) + " ")
    case Str(quote, _, _) => if blank then [Str(quote, "", true)] else [t]
  }

  function SimplifyAll(ts: seq<Token>, blank: bool): seq<Token> {
    if ts == [] then [] else Simplify(ts[0], blank) + SimplifyAll(ts[1..], blank)
  }

  predicate IsBlank(s: string) {
    forall i :: 0 <= i < |s| ==> s[i] == '\n' || s[i] == ' '
  }

  lemma {:induction false} KeepNewlinesIsBlank(s: string)
    ensures IsBlank(KeepNewlines(s)) && ' ' !in KeepNewlines(s)
  {
    if s != "" {
      KeepNewlinesIsBlank(s[..|s| - 1]);
    }
  }

  lemma PrependCode(c: char, ts: seq<Token>, blank: bool)
    requires (c == '\n' || c == ' ') && Valid(ts)
    ensures var all := [Code(c)] + ts;
      Valid(all) && Unlex(all) == [c] + Unlex(ts) && View(all, blank) == [c] + View(ts, blank)
  {
    assert ([Code(c)] + ts)[1..] == ts;
  }

  lemma {:induction false} AppendBlank(s: string, ts: seq<Token>, blank: bool)
    requires IsBlank(s) && Valid(ts)
    ensures var all := AsCode(s) + ts;
      Valid(all) && Unlex(all) == s + Unlex(ts) && View(all, blank) == s + View(ts, blank)
  {
    if s == "" {
      assert AsCode(s) + ts == ts && s + Unlex(ts) == Unlex(ts) && s + View(ts, blank) == View(ts, blank);
    } else {
      var c, rest := [s[0]], s[1..];
      var all := AsCode(rest) + ts;
      AppendBlank(rest, ts, blank);
      PrependCode(s[0], all, blank);
      Assoc([Code(s[0])], AsCode(rest), ts);
      Assoc(c, rest, Unlex(ts));
      Assoc(c, rest, View(ts, blank));
      assert c + rest == s;
    }
  }

  lemma ShowSimplified(t: Token, tail: seq<Token>, b1: bool, b2: bool)
    requires t.WellFormed() && Valid(tail)
    requires forall s :: s in Simplify(t, b1) && !s.Code? ==> s.Before(Unlex(tail))
    requires t.Code? ==> t.Before(Unlex(tail))
    ensures var all := Simplify(t, b1) + tail;
      Valid(all) && Unlex(all) == Show(t, b1) + Unlex(tail) && View(all, b2) == Show(t, b1 || b2) + View(tail, b2)
  {
    match t
    case LineComment(_) =>
      AppendBlank(" ", tail, b2);
    case BlockComment(body, _) =>
      KeepNewlinesIsBlank(body);
      AppendBlank(KeepNewlines(body) + " ", tail, b2);
    case Code(_) =>
      assert ([t] + tail)[1..] == tail;
    case Str(quote, _, _) =>
      var s := Simplify(t, b1)[0];
      assert ([s] + tail)[1..] == tail;
      assert s.Text() == Show(t, b1);
  }

  /** A view never puts a slash or a star where the source had none: what follows a code slash
      still cannot open a comment. */
  lemma FollowsStill(ts: seq<Token>, t: Token, blank: bool)
    requires Valid(ts) && t.WellFormed() && t.Before(Unlex(ts))
    ensures t.Code? ==> t.Before(View(ts, blank))
    ensures t.Str? ==> t.Before(View(ts, blank))
  {
    if ts != [] {
      assert Unlex(ts)[0] == ts[0].Text()[0];
      assert ts[0].Str? ==> ts[0].Text()[0] == ts[0].quote == Show(ts[0], blank)[0];
    }
  }

  predicate IsBlankCode(ts: seq<Token>) {
    forall t :: t in ts ==> t.Code?
  }

  lemma {:induction false} AsCodeIsCode(s: string)
    ensures IsBlankCode(AsCode(s))
  {
    if s != "" {
      AsCodeIsCode(s[1..]);
    }
  }

  lemma SimplifiedFollows(t: Token, tail: seq<Token>, blank: bool)
    requires Valid(tail) && t.WellFormed() && t.Before(Unlex(tail))
    ensures forall s :: s in Simplify(t, blank) && !s.Code? ==> s.Before(View(tail, blank))
    ensures t.Code? ==> t.Before(View(tail, blank))
  {
    FollowsStill(tail, t, blank);
    if t.BlockComment? {
      AsCodeIsCode(KeepNewlines(t.body) + " ");
    } else if t.LineComment? {
      AsCodeIsCode(" ");
    }
  }

  /** The view of a valid token list is itself the text of a valid token list, and showing that
      list again changes nothing but blanking its strings. */
  lemma {:induction false} SimplifyAllReads(ts: seq<Token>, b1: bool, b2: bool)
    requires Valid(ts)
    ensures Valid(SimplifyAll(ts, b1))
    ensures Unlex(SimplifyAll(ts, b1)) == View(ts, b1)
    ensures View(SimplifyAll(ts, b1), b2) == View(ts, b1 || b2)
  {
    hide Simplify, Show;
    if ts != [] {
      var tail := ts[1..];
      SimplifyAllReads(tail, b1, b2);
      SimplifiedFollows(ts[0], tail, b1);
      ShowSimplified(ts[0], SimplifyAll(tail, b1), b1, b2);
    }
  }

  // ---------- main results ----------

  /** Stripping is stable and the views commute, for every source: `noComments` is a fixpoint,
      `noStrings` is a fixpoint of both views. */
  lemma ViewsCommute(src: string)
    ensures NoComments(NoComments(src)) == NoComments(src)
    ensures NoStrings(NoComments(src)) == NoStrings(src)
    ensures NoStrings(NoStrings(src)) == NoStrings(src)
    ensures NoComments(NoStrings(src)) == NoStrings(src)
  {
    var ts := Tokenize(src);
    TokenizeIsValid(src);
    forall b1, b2 ensures View(Tokenize(View(ts, b1)), b2) == View(ts, b1 || b2) {
      SimplifyAllReads(ts, b1, b2);
      TokenizeUnlex(SimplifyAll(ts, b1));
    }
  }

  /** The string literals of a token list, as a view shows them. */
  function Literals(ts: seq<Token>, blank: bool): seq<Token> {
    if ts == [] then []
    else if ts[0].Str? then [if blank then Str(ts[0].quote, "", true) else ts[0]] + Literals(ts[1..], blank)
    else Literals(ts[1..], blank)
  }

  lemma {:induction false} LiteralsAfterCode(code: seq<Token>, ts: seq<Token>)
    requires IsBlankCode(code)
    ensures Literals(code + ts, false) == Literals(ts, false)
  {
    if code == [] {
      assert code + ts == ts;
    } else {
      assert (code + ts)[1..] == code[1..] + ts && (code + ts)[0] == code[0] && code[0] in code;
      LiteralsAfterCode(code[1..], ts);
    }
  }

  lemma {:induction false} LiteralsOfView(ts: seq<Token>, blank: bool)
    ensures forall t :: t in SimplifyAll(ts, blank) ==> t.Code? || t.Str?
    ensures Literals(SimplifyAll(ts, blank), false) == Literals(ts, blank)
  {
    if ts != [] {
      var first, rest := Simplify(ts[0], blank), SimplifyAll(ts[1..], blank);
      LiteralsOfView(ts[1..], blank);
      if ts[0].Str? {
        assert |first| == 1 && (first + rest)[1..] == rest;
      } else {
        assert IsBlankCode(first) by {
          if ts[0].BlockComment? {
            AsCodeIsCode(KeepNewlines(ts[0].body) + " ");
          } else if ts[0].LineComment? {
            AsCodeIsCode(" ");
          }
        }
        LiteralsAfterCode(first, rest);
      }
    }
  }

  /** Removing a comment creates no comment and no string, for every source: a view read again is code
      and string literals only, and its literals are the source's, in order; in `noComments` as they
      were, in `noStrings` with their quotes alone. */
  lemma NothingIsCreated(src: string)
    ensures forall t :: t in Tokenize(NoComments(src)) || t in Tokenize(NoStrings(src)) ==> t.Code? || t.Str?
    ensures Literals(Tokenize(NoComments(src)), false) == Literals(Tokenize(src), false)
    ensures Literals(Tokenize(NoStrings(src)), false) == Literals(Tokenize(src), true)
  {
    var ts := Tokenize(src);
    TokenizeIsValid(src);
    forall b ensures Tokenize(View(ts, b)) == SimplifyAll(ts, b) {
      SimplifyAllReads(ts, b, b);
      TokenizeUnlex(SimplifyAll(ts, b));
    }
    LiteralsOfView(ts, false);
    LiteralsOfView(ts, true);
  }

  lemma {:induction false} KeepNewlinesConcat(a: string, b: string)
    ensures KeepNewlines(a + b) == KeepNewlines(a) + KeepNewlines(b)
  {
    if b == "" {
      assert a + b == a;
    } else {
      assert (a + b)[..|a + b| - 1] == a + b[..|b| - 1];
      KeepNewlinesConcat(a, b[..|b| - 1]);
    }
  }

  lemma {:induction false} KeepNewlinesIdempotent(s: string)
    ensures KeepNewlines(KeepNewlines(s)) == KeepNewlines(s)
  {
    if s != "" {
      KeepNewlinesIdempotent(s[..|s| - 1]);
      KeepNewlinesConcat(KeepNewlines(s[..|s| - 1]), "\n");
      assert KeepNewlines("\n") == "\n";
    }
  }

  lemma {:induction false} OnlyNewlines(s: string)
    ensures forall i :: 0 <= i < |KeepNewlines(s)| ==> KeepNewlines(s)[i] == '\n'
  {
    if s != "" {
      OnlyNewlines(s[..|s| - 1]);
    }
  }

  /** So a string's newlines are determined by their number. */
  lemma SameNewlines(a: string, b: string)
    requires |KeepNewlines(a)| == |KeepNewlines(b)|
    ensures KeepNewlines(a) == KeepNewlines(b)
  {
    OnlyNewlines(a);
    OnlyNewlines(b);
  }

  lemma {:induction false} NoNewlines(s: string)
    requires '\n' !in s
    ensures KeepNewlines(s) == ""
  {
    if s != "" {
      NoNewlines(s[..|s| - 1]);
    }
  }

  lemma TextNewlines(t: Token)
    requires t.WellFormed() && !t.Code? && !t.Str?
    ensures KeepNewlines(t.Text()) == if t.BlockComment? then KeepNewlines(t.body) else ""
  {
    match t
    case LineComment(text) =>
      NoNewlines("//" + text);
    case BlockComment(body, closed) =>
      var close := if closed then "*/" else "";
      KeepNewlinesConcat("/*" + body, close);
      KeepNewlinesConcat("/*", body);
      NoNewlines("/*");
      NoNewlines(close);
  }

  lemma ShowKeepsNewlines(t: Token)
    requires t.WellFormed()
    ensures KeepNewlines(Show(t, false)) == KeepNewlines(t.Text())
    ensures !t.Str? ==> KeepNewlines(Show(t, true)) == KeepNewlines(t.Text())
    ensures t.Str? ==> KeepNewlines(Show(t, true)) == ""
  {
    match t
    case Code(_) =>
    case LineComment(text) =>
      NoNewlines("//" + text);
      NoNewlines(" ");
    case BlockComment(body, _) =>
      TextNewlines(t);
      KeepNewlinesConcat(KeepNewlines(body), " ");
      NoNewlines(" ");
      KeepNewlinesIdempotent(body);
    case Str(quote, _, _) =>
      NoNewlines([quote, quote]);
  }

  /** A comment shows, in both views, as the newlines of its text and a blank. */
  lemma CommentShows(t: Token, blank: bool)
    requires t.WellFormed() && (t.LineComment? || t.BlockComment?)
    ensures Show(t, blank) == KeepNewlines(t.Text()) + " "
  {
    TextNewlines(t);
  }

  /** Newlines inside string literals. */
  function StringNewlines(ts: seq<Token>): nat {
    if ts == [] then 0 else
    (if ts[0].Str? then |KeepNewlines(ts[0].Text())| else 0) + StringNewlines(ts[1..])
  }

  lemma {:induction false} ViewNewlines(ts: seq<Token>)
    requires Valid(ts)
    ensures KeepNewlines(View(ts, false)) == KeepNewlines(Unlex(ts))
    ensures |KeepNewlines(View(ts, true))| + StringNewlines(ts) == |KeepNewlines(Unlex(ts))|
  {
    if ts != [] {
      ViewNewlines(ts[1..]);
      ShowKeepsNewlines(ts[0]);
      KeepNewlinesConcat(ts[0].Text(), Unlex(ts[1..]));
      KeepNewlinesConcat(Show(ts[0], false), View(ts[1..], false));
      KeepNewlinesConcat(Show(ts[0], true), View(ts[1..], true));
    }
  }

  /** `noComments` keeps every newline of the source. `noStrings` loses exactly those inside string
      literals, so it keeps them all if and only if no string spans lines. */
  lemma NewlinesKept(src: string)
    ensures |KeepNewlines(NoComments(src))| == |KeepNewlines(src)|
    ensures |KeepNewlines(NoStrings(src))| == |KeepNewlines(src)| - StringNewlines(Tokenize(src))
    ensures |KeepNewlines(NoStrings(src))| == |KeepNewlines(src)| <==> StringNewlines(Tokenize(src)) == 0
  {
    TokenizeIsValid(src);
    ViewNewlines(Tokenize(src));
  }

  /** One does: the newline of a two-line string literal is gone from `noStrings`. */
  lemma StringNewlineIsLost()
    ensures var src := "`\n`";
      |KeepNewlines(src)| == 1 && NoStrings(src) == "``" && |KeepNewlines(NoStrings(src))| == 0
  {
    var src, literal := "`\n`", Str('`', "\n", true);
    assert StaysInside('`', "\n"[1..], true);
    assert literal.Text() == src && [literal][1..] == [];
    TokenizeUnlex([literal]);
    assert KeepNewlines("`") == "" && "``"[..1] == "`" && src[..2][..1] == "`" && src[..2][1] == '\n';
  }
}
