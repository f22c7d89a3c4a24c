/** The mechanism guard: its single-pass lexer and its scanner (tools/check-mechanism-guards.mjs). */
module Guard {
  import opened Wrappers
  import opened Tokens
  import opened Views

  // ---------- the lexer loop ----------

  /** What is left to read; the index may overshoot the end. */
  function Rest(src: string, i: nat): string {
    if i <= |src| then src[i..] else ""
  }

  function Between(src: string, a: nat, b: nat): string
    requires a <= b <= |src|
  {
    src[a..b]
  }

  /** The token at `i` ends at `next`, and the two views show it so. */
  ghost predicate TokenRead(src: string, i: nat, next: nat, shown: string, blanked: string) {
    i < |src| && i < next <= |src| + 2 &&
    var t := First(Rest(src, i));
    shown == Show(t, false) && blanked == Show(t, true) && Rest(src, next) == Rest(Rest(src, i), |t.Text()|)
  }

  /** Reading one more token off the front of the rest. */
  lemma StepView(src: string, i: nat, next: nat, shown: string, blanked: string, before: string, blank: bool)
    requires TokenRead(src, i, next, shown, blanked)
    ensures before + View(Tokenize(Rest(src, i)), blank)
         == before + (if blank then blanked else shown) + View(Tokenize(Rest(src, next)), blank)
  {
    var t, ts := First(src[i..]), Tokenize(Rest(src, next));
    assert Tokenize(Rest(src, i)) == [t] + ts && ([t] + ts)[1..] == ts;
    var x, y := Show(t, blank), View(ts, blank);
    assert View([t] + ts, blank) == x + y;
    assert before + (x + y) == before + x + y;
  }

  lemma LineToken(src: string, start: nat, i: nat)
    requires StartsCommentAt(src, start, '/')
    requires start + 2 <= i <= |src| && '\n' !in src[start + 2..i] && (i < |src| ==> src[i] == '\n')
    ensures First(Rest(src, start)) == LineComment(src[start + 2..i])
    ensures |First(Rest(src, start)).Text()| == i - start
  {
    var rest := src[start..][2..];
    assert rest[..i - start - 2] == src[start + 2..i];
    LineLengthIff(rest, i - start - 2);
  }

  lemma LineDone(src: string, start: nat, i: nat)
    requires StartsCommentAt(src, start, '/')
    requires start + 2 <= i <= |src| && '\n' !in src[start + 2..i] && (i < |src| ==> src[i] == '\n')
    ensures TokenRead(src, start, i, " ", " ")
  {
    hide First, Rest, Token.Text;
    LineToken(src, start, i);
    RestAfter(src, start, i - start);
  }

  /** The line comment loop: stops before the newline, which stays code. */
  method SkipLine(src: string, start: nat) returns (i: nat)
    requires StartsCommentAt(src, start, '/')
    ensures TokenRead(src, start, i, " ", " ")
  {
    i := start;
    while i < |src| && src[i] != '\n'
      invariant start <= i <= |src|
      invariant forall k :: start <= k < i ==> src[k] != '\n'
    {
      i := i + 1;
    }
    LineDone(src, start, i);
  }

  predicate StartsCommentAt(src: string, i: nat, second: char) {
    i + 1 < |src| && src[i] == '/' && src[i + 1] == second
  }

  predicate EndsCommentAt(src: string, i: nat) {
    i + 1 < |src| && src[i] == '*' && src[i + 1] == '/'
  }

  /** The loop has read the comment up to `i`, keeping the newlines, without meeting its end. */
  ghost predicate InComment(src: string, start: nat, i: nat, newlines: string) {
    && start + 2 <= i <= |src|
    && newlines == KeepNewlines(Between(src, start + 2, i))
    && i - start - 2 + BlockLength(Rest(src, i)) == BlockLength(Rest(src, start + 2))
  }

  lemma InCommentStart(src: string, start: nat)
    requires StartsCommentAt(src, start, '*')
    ensures InComment(src, start, start + 2, "")
  {
  }

  lemma BetweenSnoc(src: string, a: nat, b: nat)
    requires a <= b < |src|
    ensures Between(src, a, b + 1) == Between(src, a, b) + [src[b]]
  {
  }

  lemma KeepNewlinesSnoc(s: string, c: char)
    ensures KeepNewlines(s + [c]) == if c == '\n' then KeepNewlines(s) + "\n" else KeepNewlines(s)
  {
    assert (s + [c])[..|s|] == s;
  }

  lemma BlockLengthStep(src: string, i: nat)
    requires i < |src| && !EndsCommentAt(src, i)
    ensures BlockLength(Rest(src, i)) == 1 + BlockLength(Rest(src, i + 1))
  {
    assert src[i..][1..] == src[i + 1..];
  }

  lemma InCommentStep(src: string, start: nat, i: nat, newlines: string)
    requires InComment(src, start, i, newlines) && i < |src|
    requires !EndsCommentAt(src, i)
    ensures InComment(src, start, i + 1, if src[i] == '\n' then newlines + "\n" else newlines)
  {
    hide Rest, Between, BlockLength, KeepNewlines, EndsCommentAt;
    BetweenSnoc(src, start + 2, i);
    KeepNewlinesSnoc(Between(src, start + 2, i), src[i]);
    BlockLengthStep(src, i);
  }

  lemma RestIs(src: string, i: nat)
    requires i <= |src|
    ensures |Rest(src, i)| == |src| - i
    ensures forall n: nat :: n <= |src| - i ==>
      Rest(src, i)[..n] == Between(src, i, i + n) && |Between(src, i, i + n)| == n
    ensures i < |src| ==> Rest(src, i) == [src[i]] + Rest(src, i + 1) && Rest(src, i)[1..] == Rest(src, i + 1)
  {
  }

  lemma RestOfComment(src: string, start: nat)
    requires StartsCommentAt(src, start, '*')
    ensures StartsComment(Rest(src, start), '*') && Rest(src, start)[2..] == Rest(src, start + 2)
  {
  }

  lemma NoBlockLength(src: string, i: nat)
    requires i < |src| ==> EndsCommentAt(src, i)
    ensures BlockLength(Rest(src, i)) == 0
    ensures i < |src| ==> i + 2 <= |src|
  {
  }

  lemma BlockToken(src: string, start: nat, i: nat)
    requires StartsCommentAt(src, start, '*') && start + 2 <= i <= |src|
    requires i - start - 2 + BlockLength(Rest(src, i)) == BlockLength(Rest(src, start + 2))
    requires i < |src| ==> EndsCommentAt(src, i)
    ensures i < |src| ==> i + 2 <= |src|
    ensures var t := First(Rest(src, start));
      t == BlockComment(Between(src, start + 2, i), i < |src|) && |t.Text()| == i - start + (if i < |src| then 2 else 0)
  {
    hide First, Rest, Between, BlockLength, StartsCommentAt, EndsCommentAt, StartsComment, Token.Text;
    NoBlockLength(src, i);
    RestOfComment(src, start);
    FirstOfStarred(Rest(src, start));
    RestIs(src, start + 2);
    assert Rest(src, start + 2)[..i - start - 2] == Between(src, start + 2, start + 2 + (i - start - 2));
    BlockTextLength(Between(src, start + 2, i), i < |src|);
  }

  /** What follows a token of `n` characters; an index may overshoot the end by two. */
  lemma RestAfter(src: string, start: nat, n: nat)
    requires start + n <= |src|
    ensures Rest(src, start + n) == Rest(Rest(src, start), n)
    ensures start + n == |src| ==> Rest(src, start + n + 1) == Rest(src, start + n + 2) == Rest(Rest(src, start), n)
  {
    assert src[start + n..] == src[start..][n..];
  }

  lemma BlockDone(src: string, start: nat, i: nat, newlines: string)
    requires StartsCommentAt(src, start, '*') && InComment(src, start, i, newlines)
    requires i < |src| ==> EndsCommentAt(src, i)
    ensures TokenRead(src, start, i + 2, newlines + " ", newlines + " ")
  {
    hide First, Rest, Between, BlockLength, KeepNewlines, StartsCommentAt, EndsCommentAt, Token.Text;
    BlockToken(src, start, i);
    if i < |src| {
      RestAfter(src, start, i - start + 2);
    } else {
      RestAfter(src, start, i - start);
    }
  }

  /** The block comment loop: returns the overshooting index and the newlines passed. */
  method SkipBlock(src: string, start: nat) returns (i: nat, newlines: string)
    requires StartsCommentAt(src, start, '*')
    ensures TokenRead(src, start, i, newlines + " ", newlines + " ")
  {
    hide *;
    InCommentStart(src, start);
    i, newlines := start + 2, "";
    while i < |src| && !EndsCommentAt(src, i)
      invariant InComment(src, start, i, newlines)
    {
      InCommentStep(src, start, i, newlines);
      if src[i] == '\n' {
        newlines := newlines + "\n";
      }
      i := i + 1;
    }
    BlockDone(src, start, i, newlines);
    i := i + 2;
  }

  /** How far the literal has been read: the index, or the end when the index overshoots. */
  function Reach(src: string, i: nat): (r: nat)
    ensures r <= |src| && r <= i
  {
    if i <= |src| then i else |src|
  }

  /** The loop has read the literal up to `i` without meeting its closing quote. */
  ghost predicate Inside(src: string, start: nat, i: nat, str: string) {
    && start < i <= |src| + 1 && start < |src|
    && str == Between(src, start, Reach(src, i))
    && StringLength(src[start], Rest(src, start + 1)) ==
       if i <= |src| then i - start - 1 + StringLength(src[start], Rest(src, i)) else |src| - start - 1
  }

  lemma InsideStart(src: string, start: nat)
    requires start < |src|
    ensures Inside(src, start, start + 1, [src[start]])
  {
  }

  lemma StringLengthStep(src: string, quote: char, i: nat)
    requires i < |src|
    ensures src[i] == '\\' && i + 1 < |src| ==>
      StringLength(quote, Rest(src, i)) == 2 + StringLength(quote, Rest(src, i + 2))
    ensures src[i] == '\\' && i + 1 == |src| ==> StringLength(quote, Rest(src, i)) == 1
    ensures src[i] != '\\' && src[i] != quote ==>
      StringLength(quote, Rest(src, i)) == 1 + StringLength(quote, Rest(src, i + 1))
  {
    assert src[i..][1..] == src[i + 1..];
    assert i + 1 < |src| ==> src[i..][2..] == src[i + 2..];
  }

  lemma InsideEscape(src: string, start: nat, i: nat, str: string)
    requires Inside(src, start, i, str) && i < |src| && src[i] == '\\'
    ensures Inside(src, start, i + 2, str + ([src[i]] + (if i + 1 < |src| then [src[i + 1]] else "")))
  {
    hide Rest, Between, StringLength;
    StringLengthStep(src, src[start], i);
    BetweenSnoc(src, start, i);
    if i + 1 < |src| {
      BetweenSnoc(src, start, i + 1);
      Assoc(str, [src[i]], [src[i + 1]]);
    } else {
      assert [src[i]] + "" == [src[i]];
    }
  }

  lemma InsidePlain(src: string, start: nat, i: nat, str: string)
    requires Inside(src, start, i, str) && i < |src| && src[i] != '\\' && src[i] != src[start]
    ensures Inside(src, start, i + 1, str + [src[i]])
  {
    hide Rest, Between, StringLength;
    StringLengthStep(src, src[start], i);
    BetweenSnoc(src, start, i);
  }

  lemma StringLengthFits(quote: char, s: string)
    ensures StringLength(quote, s) <= |s|
  {
  }

  lemma StringTextIs(src: string, start: nat, end: nat, closed: bool)
    requires start < end <= |src|
    ensures var t := Str(src[start], Between(src, start + 1, end), closed);
      && t.Text() == Between(src, start, end) + (if closed then [src[start]] else "")
      && |t.Text()| == end - start + (if closed then 1 else 0)
  {
    assert [src[start]] + src[start + 1..end] == src[start..end];
  }

  lemma StringToken(src: string, start: nat, n: nat)
    requires start < |src| && IsQuote(src[start]) && n == StringLength(src[start], Rest(src, start + 1))
    ensures start + 1 + n <= |src|
    ensures var (t, end, closed) := (First(Rest(src, start)), start + 1 + n, start + 1 + n < |src|);
      && t == Str(src[start], Between(src, start + 1, end), closed)
      && t.Text() == Between(src, start, end) + (if closed then [src[start]] else "")
      && |t.Text()| == n + (if closed then 2 else 1)
  {
    hide First, Rest, Between, StringLength, Token.Text;
    StringLengthFits(src[start], Rest(src, start + 1));
    RestIs(src, start);
    RestIs(src, start + 1);
    FirstOfQuoted(src[start], Rest(src, start + 1));
    assert Rest(src, start + 1)[..n] == Between(src, start + 1, start + 1 + n);
    StringTextIs(src, start, start + 1 + n, start + 1 + n < |src|);
  }

  lemma NoStringLength(src: string, quote: char, i: nat)
    requires i < |src| ==> src[i] == quote && IsQuote(quote)
    ensures StringLength(quote, Rest(src, i)) == 0
  {
  }

  /** The loop stops at the closing quote. */
  lemma StringCloses(src: string, start: nat, i: nat, str: string)
    requires Inside(src, start, i, str) && IsQuote(src[start]) && i < |src| && src[i] == src[start]
    ensures TokenRead(src, start, i + 1, str + [src[i]], [src[start], src[start]])
  {
    hide First, StringLength, Rest, Between;
    NoStringLength(src, src[start], i);
    StringToken(src, start, i - start - 1);
    RestAfter(src, start, i + 1 - start);
  }

  /** The loop runs off the end of an unterminated literal. */
  lemma StringRunsOff(src: string, start: nat, i: nat, str: string)
    requires Inside(src, start, i, str) && IsQuote(src[start]) && i >= |src|
    ensures TokenRead(src, start, i, str, [src[start], src[start]])
  {
    hide First, StringLength, Rest, Between;
    NoStringLength(src, src[start], |src|);
    StringToken(src, start, |src| - start - 1);
    RestAfter(src, start, |src| - start);
    assert str + "" == str;
  }

  /** The string literal loop: returns the overshooting index and the literal's text. */
  method ReadString(src: string, start: nat) returns (i: nat, str: string)
    requires start < |src| && IsQuote(src[start])
    ensures TokenRead(src, start, i, str, [src[start], src[start]])
  {
    hide Inside, TokenRead, Rest, Between;
    var quote := src[start];
    str := [quote];
    i := start + 1;
    InsideStart(src, start);
    while i < |src|
      invariant Inside(src, start, i, str)
    {
      var ch := src[i];
      if ch == '\\' {
        InsideEscape(src, start, i, str);
        str := str + ([ch] + (if i + 1 < |src| then [src[i + 1]] else ""));
        i := i + 2;
        continue;
      }
      if ch == quote {
        StringCloses(src, start, i, str);
        return i + 1, str + [ch];
      }
      InsidePlain(src, start, i, str);
      str := str + [ch];
      i := i + 1;
    }
    StringRunsOff(src, start, i, str);
  }

  lemma CodeDone(src: string, i: nat)
    requires i < |src| && !IsQuote(src[i]) && !StartsCommentAt(src, i, '/') && !StartsCommentAt(src, i, '*')
    ensures TokenRead(src, i, i + 1, [src[i]], [src[i]])
  {
    assert First(src[i..]) == Code(src[i]);
  }

  /** One turn of the lexer: the index after the token at `i`, and what each view gains. */
  method LexToken(src: string, i: nat) returns (next: nat, shown: string, blanked: string)
    requires i < |src|
    ensures TokenRead(src, i, next, shown, blanked)
  {
    var c := src[i];
    var d := if i + 1 < |src| then [src[i + 1]] else "";
    if c == '/' && d == "/" {
      next := SkipLine(src, i);
      return next, " ", " ";
    }
    if c == '/' && d == "*" {
      var newlines;
      next, newlines := SkipBlock(src, i);
      return next, newlines + " ", newlines + " ";
    }
    if IsQuote(c) {
      next, shown := ReadString(src, i);
      return next, shown, [c, c];
    }
    CodeDone(src, i);
    return i + 1, [c], [c];
  }

  /** The two views of a source, computed in one pass, are the two renderings of its tokens. */
  method Lex(src: string) returns (noComments: string, noStrings: string)
    ensures noComments == NoComments(src)
    ensures noStrings == NoStrings(src)
  {
    noComments, noStrings := "", "";
    var i := 0;
    while i < |src|
      invariant i <= |src| + 2
      invariant NoComments(src) == noComments + View(Tokenize(Rest(src, i)), false)
      invariant NoStrings(src) == noStrings + View(Tokenize(Rest(src, i)), true)
      decreases |src| + 2 - i
    {
      var next, shown, blanked := LexToken(src, i);
      StepView(src, i, next, shown, blanked, noComments, false);
      StepView(src, i, next, shown, blanked, noStrings, true);
      noComments, noStrings := noComments + shown, noStrings + blanked;
      i := next;
    }
  }

  // ---------- the scanner ----------

  datatype ImportRule = ImportRule(name: string, test: string -> bool)
  datatype MatchRule = MatchRule(name: string, find: string -> Option<string>)
  datatype Violation = Violation(path: string, rule: string, found: string)

  /** The rule sets. The regular expressions stay abstract; a code rule's `find` gives the match trimmed. */
  datatype Rules = Rules(
    importSpecifiers: string -> seq<string>,
    forbiddenImports: seq<ImportRule>,
    forbiddenCode: seq<MatchRule>,
    forbiddenSecrets: seq<MatchRule>
  )

  function Slashes(path: string): string {
    seq(|path|, i requires 0 <= i < |path| => if path[i] == '\\' then '/' else path[i])
  }

  predicate EntryAllows(entry: string, path: string) {
    entry != "" &&
    var p, e := Slashes(path), Slashes(entry);
    var prefix := if e[|e| - 1] == '/' then e else e + "/";
    p == e || prefix <= p
  }

  predicate IsAllowlisted(path: string, allowlist: seq<string>) {
    exists k :: 0 <= k < |allowlist| && EntryAllows(allowlist[k], path)
  }

  function Clip(s: string): string {
    if |s| <= 24 then s else s[..24]
  }

  function SecretHit(path: string, text: string, rule: MatchRule): seq<Violation> {
    match rule.find(text)
    case None => []
    case Some(m) => [Violation(path, "allowlisted_but_key_material:" + rule.name, Clip(m))]
  }

  function SecretHits(path: string, text: string, rules: seq<MatchRule>): seq<Violation> {
    if rules == [] then [] else SecretHit(path, text, rules[0]) + SecretHits(path, text, rules[1..])
  }

  function CodeHit(path: string, text: string, rule: MatchRule): seq<Violation> {
    match rule.find(text)
    case None => []
    case Some(m) => [Violation(path, rule.name, m)]
  }

  function CodeHits(path: string, text: string, rules: seq<MatchRule>): seq<Violation> {
    if rules == [] then [] else CodeHit(path, text, rules[0]) + CodeHits(path, text, rules[1..])
  }

  function SpecifierHits(path: string, specifier: string, rules: seq<ImportRule>): seq<Violation> {
    if rules == [] then [] else
    (if rules[0].test(specifier) then [Violation(path, rules[0].name, specifier)] else [])
    + SpecifierHits(path, specifier, rules[1..])
  }

  function ImportHits(path: string, specifiers: seq<string>, rules: seq<ImportRule>): seq<Violation> {
    if specifiers == [] then [] else
    SpecifierHits(path, specifiers[0], rules) + ImportHits(path, specifiers[1..], rules)
  }

  function Scan(path: string, src: string, rules: Rules, allowlist: seq<string>): seq<Violation> {
    if IsAllowlisted(path, allowlist) then SecretHits(path, NoComments(src), rules.forbiddenSecrets)
    else ImportHits(path, rules.importSpecifiers(NoComments(src)), rules.forbiddenImports)
         + CodeHits(path, NoStrings(src), rules.forbiddenCode)
  }

  method ScanText(path: string, text: string, rules: Rules, allowlist: seq<string>)
    returns (violations: seq<Violation>)
    ensures violations == Scan(path, text, rules, allowlist)
  {
    var noComments, noStrings := Lex(text);
    if IsAllowlisted(path, allowlist) {
      violations := ScanSecrets(path, noComments, rules.forbiddenSecrets);
      return;
    }
    violations := ScanImports(path, rules.importSpecifiers(noComments), rules.forbiddenImports);
    var code := ScanCode(path, noStrings, rules.forbiddenCode);
    violations := violations + code;
  }

  lemma SecretHitsEnds(path: string, text: string, rules: seq<MatchRule>, all: seq<Violation>)
    ensures [] + SecretHits(path, text, rules[0..]) == SecretHits(path, text, rules)
    ensures all + SecretHits(path, text, rules[|rules|..]) == all
  {
    assert rules[0..] == rules && rules[|rules|..] == [];
  }

  lemma SecretHitsStep(path: string, text: string, rules: seq<MatchRule>, i: nat, before: seq<Violation>)
    requires i < |rules|
    ensures before + SecretHits(path, text, rules[i..])
         == (match rules[i].find(text)
             case None => before
             case Some(m) => before + [Violation(path, "allowlisted_but_key_material:" + rules[i].name, Clip(m))])
            + SecretHits(path, text, rules[i + 1..])
  {
    assert rules[i..][1..] == rules[i + 1..];
    Assoc(before, SecretHit(path, text, rules[i]), SecretHits(path, text, rules[i + 1..]));
    assert before + [] == before;
  }

  method ScanSecrets(path: string, text: string, rules: seq<MatchRule>) returns (violations: seq<Violation>)
    ensures violations == SecretHits(path, text, rules)
  {
    hide SecretHits;
    SecretHitsEnds(path, text, rules, []);
    violations := [];
    for i := 0 to |rules|
      invariant violations + SecretHits(path, text, rules[i..]) == SecretHits(path, text, rules)
    {
      SecretHitsStep(path, text, rules, i, violations);
      var m := rules[i].find(text);
      if m.Some? {
        violations := violations + [Violation(path, "allowlisted_but_key_material:" + rules[i].name, Clip(m.value))];
      }
    }
    SecretHitsEnds(path, text, rules, violations);
  }

  lemma CodeHitsEnds(path: string, text: string, rules: seq<MatchRule>, all: seq<Violation>)
    ensures [] + CodeHits(path, text, rules[0..]) == CodeHits(path, text, rules)
    ensures all + CodeHits(path, text, rules[|rules|..]) == all
  {
    assert rules[0..] == rules && rules[|rules|..] == [];
  }

  lemma CodeHitsStep(path: string, text: string, rules: seq<MatchRule>, i: nat, before: seq<Violation>)
    requires i < |rules|
    ensures before + CodeHits(path, text, rules[i..])
         == (match rules[i].find(text) case None => before case Some(m) => before + [Violation(path, rules[i].name, m)])
            + CodeHits(path, text, rules[i + 1..])
  {
    assert rules[i..][1..] == rules[i + 1..];
    Assoc(before, CodeHit(path, text, rules[i]), CodeHits(path, text, rules[i + 1..]));
    assert before + [] == before;
  }

  method ScanCode(path: string, text: string, rules: seq<MatchRule>) returns (violations: seq<Violation>)
    ensures violations == CodeHits(path, text, rules)
  {
    hide CodeHits;
    CodeHitsEnds(path, text, rules, []);
    violations := [];
    for i := 0 to |rules|
      invariant violations + CodeHits(path, text, rules[i..]) == CodeHits(path, text, rules)
    {
      CodeHitsStep(path, text, rules, i, violations);
      var m := rules[i].find(text);
      if m.Some? {
        violations := violations + [Violation(path, rules[i].name, m.value)];
      }
    }
    CodeHitsEnds(path, text, rules, violations);
  }

  lemma SpecifierHitsStep(path: string, specifier: string, rules: seq<ImportRule>, j: nat, before: seq<Violation>)
    requires j < |rules|
    ensures before + SpecifierHits(path, specifier, rules[j..]) ==
      (if rules[j].test(specifier) then before + [Violation(path, rules[j].name, specifier)] else before)
      + SpecifierHits(path, specifier, rules[j + 1..])
  {
    assert rules[j..][1..] == rules[j + 1..];
  }

  lemma ImportHitsStep(path: string, specifiers: seq<string>, rules: seq<ImportRule>, i: nat, before: seq<Violation>)
    requires i < |specifiers|
    ensures before + ImportHits(path, specifiers[i..], rules)
         == before + SpecifierHits(path, specifiers[i], rules) + ImportHits(path, specifiers[i + 1..], rules)
  {
    assert specifiers[i..][1..] == specifiers[i + 1..];
  }

  method ScanImports(path: string, specifiers: seq<string>, rules: seq<ImportRule>)
    returns (violations: seq<Violation>)
    ensures violations == ImportHits(path, specifiers, rules)
  {
    violations := [];
    for i := 0 to |specifiers|
      invariant violations + ImportHits(path, specifiers[i..], rules) == ImportHits(path, specifiers, rules)
    {
      ImportHitsStep(path, specifiers, rules, i, violations);
      violations := ScanSpecifier(path, specifiers[i], rules, violations);
    }
  }

  /** The inner loop: one specifier against every import rule. */
  method ScanSpecifier(path: string, specifier: string, rules: seq<ImportRule>, before: seq<Violation>)
    returns (violations: seq<Violation>)
    ensures violations == before + SpecifierHits(path, specifier, rules)
  {
    violations := before;
    for j := 0 to |rules|
      invariant violations + SpecifierHits(path, specifier, rules[j..]) ==
        before + SpecifierHits(path, specifier, rules)
    {
      SpecifierHitsStep(path, specifier, rules, j, violations);
      if rules[j].test(specifier) {
        violations := violations + [Violation(path, rules[j].name, specifier)];
      }
    }
  }

  // ---------- main results ----------

  lemma {:induction false} SecretHitsIff(path: string, text: string, rules: seq<MatchRule>, v: Violation)
    ensures v in SecretHits(path, text, rules) <==> exists r :: r in rules && v in SecretHit(path, text, r)
  {
    if rules != [] {
      SecretHitsIff(path, text, rules[1..], v);
      assert forall r :: r in rules <==> r == rules[0] || r in rules[1..];
    }
  }

  lemma {:induction false} CodeHitsIff(path: string, text: string, rules: seq<MatchRule>, v: Violation)
    ensures v in CodeHits(path, text, rules) <==> exists r :: r in rules && v in CodeHit(path, text, r)
  {
    if rules != [] {
      CodeHitsIff(path, text, rules[1..], v);
      assert forall r :: r in rules <==> r == rules[0] || r in rules[1..];
    }
  }

  /** `v` reports that a rule forbids the specifier. */
  ghost predicate Forbids(path: string, specifier: string, rules: seq<ImportRule>, v: Violation) {
    exists r :: r in rules && r.test(specifier) && v == Violation(path, r.name, specifier)
  }

  lemma {:induction false} SpecifierHitsIff(path: string, specifier: string, rules: seq<ImportRule>, v: Violation)
    ensures v in SpecifierHits(path, specifier, rules) <==> Forbids(path, specifier, rules, v)
  {
    if rules != [] {
      SpecifierHitsIff(path, specifier, rules[1..], v);
      assert forall r :: r in rules <==> r == rules[0] || r in rules[1..];
    }
  }

  lemma {:induction false} ImportHitsIff(path: string, specifiers: seq<string>, rules: seq<ImportRule>, v: Violation)
    ensures v in ImportHits(path, specifiers, rules) <==>
      exists s :: s in specifiers && Forbids(path, s, rules, v)
  {
    hide SpecifierHits, Forbids;
    if specifiers != [] {
      SpecifierHitsIff(path, specifiers[0], rules, v);
      ImportHitsIff(path, specifiers[1..], rules, v);
      assert forall s :: s in specifiers <==> s == specifiers[0] || s in specifiers[1..];
    }
  }

  /** Backslashes read as slashes; nothing else of a path changes. */
  lemma SlashesAre(path: string)
    ensures |Slashes(path)| == |path|
    ensures forall i :: 0 <= i < |path| ==> Slashes(path)[i] == if path[i] == '\\' then '/' else path[i]
  {
  }

  /** `path` is `entry` or lies under it, by whole path segments: never a sibling whose name merely
      starts with it. An entry that ends in a slash, as the shipped one does, admits every path that
      starts with it; the empty entry admits none. */
  predicate Under(entry: string, path: string) {
    var p, e := Slashes(path), Slashes(entry);
    e != "" && e <= p && (e[|e| - 1] == '/' || |p| == |e| || p[|e|] == '/')
  }

  lemma AllowedIff(entry: string, path: string)
    ensures EntryAllows(entry, path) <==> Under(entry, path)
  {
    var p, e := Slashes(path), Slashes(entry);
    if e + "/" <= p {
      assert e <= e + "/" <= p && p[|e|] == '/';
    }
    if e <= p && |p| > |e| && p[|e|] == '/' {
      assert e + "/" <= p;
    }
  }

  /** The carve-out is what lies under some entry of the list, and nothing else. */
  lemma AllowlistIff(path: string, allowlist: seq<string>)
    ensures IsAllowlisted(path, allowlist) <==> exists entry :: entry in allowlist && Under(entry, path)
  {
    forall entry ensures EntryAllows(entry, path) <==> Under(entry, path) {
      AllowedIff(entry, path);
    }
    hide Under, EntryAllows;
    if entry :| entry in allowlist && Under(entry, path) {
      var k :| 0 <= k < |allowlist| && allowlist[k] == entry;
      assert EntryAllows(allowlist[k], path);
    }
  }

  /** A rule that finds key material reports its first 24 characters. */
  ghost predicate ReportsSecret(path: string, text: string, r: MatchRule, v: Violation) {
    exists m :: r.find(text) == Some(m) &&
                v == Violation(path, "allowlisted_but_key_material:" + r.name, if |m| > 24 then m[..24] else m)
  }

  /** A rule that finds a mechanism reports all of it. */
  ghost predicate ReportsCode(path: string, text: string, r: MatchRule, v: Violation) {
    exists m :: r.find(text) == Some(m) && v == Violation(path, r.name, m)
  }

  lemma HitIff(path: string, text: string, r: MatchRule, v: Violation)
    ensures v in SecretHit(path, text, r) <==> ReportsSecret(path, text, r, v)
    ensures v in CodeHit(path, text, r) <==> ReportsCode(path, text, r, v)
  {
    match r.find(text)
    case None =>
    case Some(m) => assert r.find(text) == Some(m);
  }

  /** What the guard reports, exactly. Under an entry of the allowlist: key material in the text without
      comments, and nothing else. Anywhere else: forbidden imports among the specifiers of that text, and
      forbidden mechanisms in the text without comments and strings. */
  lemma ScanReports(path: string, src: string, rules: Rules, allowlist: seq<string>, v: Violation)
    ensures v in Scan(path, src, rules, allowlist) <==>
      if exists entry :: entry in allowlist && Under(entry, path) then
        exists r :: r in rules.forbiddenSecrets && ReportsSecret(path, NoComments(src), r, v)
      else
        (exists s :: s in rules.importSpecifiers(NoComments(src)) && Forbids(path, s, rules.forbiddenImports, v)) ||
        (exists r :: r in rules.forbiddenCode && ReportsCode(path, NoStrings(src), r, v))
  {
    hide Forbids, NoComments, NoStrings, IsAllowlisted, SecretHit, CodeHit, Under, ReportsSecret, ReportsCode;
    AllowlistIff(path, allowlist);
    SecretHitsIff(path, NoComments(src), rules.forbiddenSecrets, v);
    ImportHitsIff(path, rules.importSpecifiers(NoComments(src)), rules.forbiddenImports, v);
    CodeHitsIff(path, NoStrings(src), rules.forbiddenCode, v);
    forall r: MatchRule, text: string
      ensures v in SecretHit(path, text, r) <==> ReportsSecret(path, text, r, v)
      ensures v in CodeHit(path, text, r) <==> ReportsCode(path, text, r, v)
    {
      HitIff(path, text, r, v);
    }
  }

  /** The same program text: tokens agree except that a comment may be any comment with as many
      newlines. */
  predicate SameCode(a: seq<Token>, b: seq<Token>) {
    |a| == |b| && forall i :: 0 <= i < |a| ==> a[i] == b[i] || SameComment(a[i], b[i])
  }

  /** Two comments, of either kind and of any text, with as many newlines. */
  predicate SameComment(a: Token, b: Token) {
    && (a.LineComment? || a.BlockComment?) && (b.LineComment? || b.BlockComment?)
    && |KeepNewlines(a.Text())| == |KeepNewlines(b.Text())|
  }

  /** Tokens agree except for comments, as above, and for what stands inside string literals. */
  predicate SameSkeleton(a: seq<Token>, b: seq<Token>) {
    |a| == |b| && forall i :: 0 <= i < |a| ==>
      a[i] == b[i] || SameComment(a[i], b[i]) || (a[i].Str? && b[i].Str? && a[i].quote == b[i].quote)
  }

  lemma SameCommentShowsSame(a: Token, b: Token, blank: bool)
    requires a.WellFormed() && b.WellFormed() && SameComment(a, b)
    ensures Show(a, blank) == Show(b, blank)
  {
    CommentShows(a, blank);
    CommentShows(b, blank);
    SameNewlines(a.Text(), b.Text());
  }

  lemma {:induction false} SameCodeSameView(a: seq<Token>, b: seq<Token>, blank: bool)
    requires Valid(a) && Valid(b)
    requires SameCode(a, b) || (blank && SameSkeleton(a, b))
    ensures View(a, blank) == View(b, blank)
  {
    if a != [] {
      SameCodeSameView(a[1..], b[1..], blank);
      if SameComment(a[0], b[0]) {
        SameCommentShowsSame(a[0], b[0], blank);
      }
    }
  }

  /** Guard verdicts ignore comments: rewriting comments, with as many newlines, cannot add, hide or
      change a violation, on an allowlisted path or on any other. */
  lemma VerdictIgnoresComments(path: string, a: string, b: string, rules: Rules, allowlist: seq<string>)
    requires SameCode(Tokenize(a), Tokenize(b))
    ensures Scan(path, a, rules, allowlist) == Scan(path, b, rules, allowlist)
  {
    TokenizeIsValid(a);
    TokenizeIsValid(b);
    SameCodeSameView(Tokenize(a), Tokenize(b), false);
    SameCodeSameView(Tokenize(a), Tokenize(b), true);
  }

  /** The mechanism rules also ignore string contents. */
  lemma MechanismsIgnoreStrings(path: string, a: string, b: string, rules: Rules)
    requires SameSkeleton(Tokenize(a), Tokenize(b))
    ensures CodeHits(path, NoStrings(a), rules.forbiddenCode)
         == CodeHits(path, NoStrings(b), rules.forbiddenCode)
  {
    TokenizeIsValid(a);
    TokenizeIsValid(b);
    SameCodeSameView(Tokenize(a), Tokenize(b), true);
  }

  /** Scanning stripped text is scanning the text: running the guard on its own `noComments` view
      gives the same verdict. */
  lemma VerdictOfStripped(path: string, src: string, rules: Rules, allowlist: seq<string>)
    ensures Scan(path, NoComments(src), rules, allowlist) == Scan(path, src, rules, allowlist)
  {
    ViewsCommute(src);
  }
}
