/** The colouring lexer of `demos/console.py`: one regular expression, first alternative that matches. */
module ConsoleLexer {

  /** The character classes of the host's regular expressions, and the keywords of the panel. */
  datatype Classes = Classes(digit: char -> bool, numeral: char -> bool, word: char -> bool, space: char -> bool,
                             keyword: string -> bool) {
    /** Every digit is a numeral, every numeral a word character, no word character white space. */
    ghost predicate Valid() {
      && (forall c :: digit(c) ==> numeral(c)) && (forall c :: numeral(c) ==> word(c))
      && (forall c :: word(c) ==> !space(c))
      && space('\n') && !word('"') && !word('\'') && !word('/') && !word('#')
      && !space('"') && !space('\'') && !space('/') && !space('#')
    }
  }

  /** The end of the run of characters from `p` on that satisfy `f`. */
  function RunEnd(s: string, p: nat, f: char -> bool): (e: nat)
    requires p <= |s|
    ensures p <= e <= |s|
    ensures forall i :: p <= i < e ==> f(s[i])
    ensures e < |s| ==> !f(s[e])
    decreases |s| - p
  {
    if p < |s| && f(s[p]) then RunEnd(s, p + 1, f) else p
  }

  /** Just past the next `q` from `p` on, or 0 if there is none. */
  function Closing(s: string, p: nat, q: char): (e: nat)
    requires p <= |s|
    ensures e == 0 || (p < e <= |s| && s[e - 1] == q)
    ensures forall i :: p <= i < (if e == 0 then |s| else e - 1) ==> s[i] != q
    decreases |s| - p
  {
    if p == |s| then 0 else if s[p] == q then p + 1 else Closing(s, p + 1, q)
  }

  datatype Kind = Str | Note | Number | Word | Space | Single

  /** A word boundary between the characters before and at `p`. */
  predicate Boundary(s: string, p: nat, k: Classes)
    requires p <= |s|
  {
    (p > 0 && k.word(s[p - 1])) != (p < |s| && k.word(s[p]))
  }

  /** `\b\d+\b` at `p`: backtracking into the digits cannot help, a shorter run ends inside a word. */
  predicate NumberAt(s: string, p: nat, k: Classes)
    requires p < |s|
  {
    k.digit(s[p]) && Boundary(s, p, k) && Boundary(s, RunEnd(s, p, k.digit), k)
  }

  predicate CommentAt(s: string, p: nat)
    requires p <= |s|
  {
    p + 1 < |s| && s[p] == '/' && s[p + 1] == '/'
  }

  /** The token that starts at `p`: which alternative matched, and where it ends. */
  function TokenAt(s: string, p: nat, k: Classes): (t: (Kind, nat))
    requires p < |s|
    ensures p < t.1 <= |s|
  {
    if s[p] == '"' && Closing(s, p + 1, '"') > 0 then (Str, Closing(s, p + 1, '"'))
    else if s[p] == '\'' && Closing(s, p + 1, '\'') > 0 then (Str, Closing(s, p + 1, '\''))
    else if CommentAt(s, p) then (Note, RunEnd(s, p + 2, c => c != '\n'))
    else if NumberAt(s, p, k) then (Number, RunEnd(s, p, k.digit))
    else if k.word(s[p]) then (Word, RunEnd(s, p, k.word))
    else if k.space(s[p]) then (Space, RunEnd(s, p, k.space))
    else (Single, p + 1)
  }

  datatype Ink = Text | Keyword | String | Digits | Comment | Punct

  predicate StartsWith(s: string, pre: string) { |pre| <= |s| && s[..|pre|] == pre }

  predicate All(tok: string, f: char -> bool) { forall i :: 0 <= i < |tok| ==> f(tok[i]) }

  /** The colour of a token, decided from its text alone. */
  function InkOf(tok: string, k: Classes): Ink
    requires tok != []
  {
    if StartsWith(tok, "//") || StartsWith(tok, "#") then Comment
    else if tok[0] == '"' || tok[0] == '\'' then String
    else if All(tok, k.numeral) then Digits
    else if k.keyword(tok) then Keyword
    else if All(tok, k.space) || All(tok, k.word) then Text
    else Punct
  }

  /** A coloured run, with where it came from. */
  datatype Run = Run(text: string, ink: Ink)

  function Stripped(s: string, k: Classes): string
  {
    s[RunEnd(s, 0, k.space)..]
  }

  /** A line that is a comment from its first ink on is one run, indent and all. */
  predicate WholeComment(s: string, k: Classes) {
    StartsWith(Stripped(s, k), "//") || StartsWith(Stripped(s, k), "#")
  }

  /** The coloured run of the token that starts at `p`. */
  function FirstRun(s: string, p: nat, k: Classes): (r: Run)
    requires p < |s|
    ensures r.text == s[p..TokenAt(s, p, k).1]
  {
    var tok := s[p..TokenAt(s, p, k).1];
    Run(tok, InkOf(tok, k))
  }

  function Tokens(s: string, p: nat, k: Classes): (r: seq<Run>)
    requires p <= |s|
    decreases |s| - p
  {
    if p == |s| then []
    else
      var e := TokenAt(s, p, k).1;
      [FirstRun(s, p, k)] + Tokens(s, e, k)
  }

  function Colourised(s: string, k: Classes): seq<Run> {
    if WholeComment(s, k) then [Run(s, Comment)] else Tokens(s, 0, k)
  }

  function Texts(runs: seq<Run>): string {
    if runs == [] then "" else Texts(runs[..|runs| - 1]) + runs[|runs| - 1].text
  }

  lemma {:induction false} TextsConcat(a: seq<Run>, b: seq<Run>)
    ensures Texts(a + b) == Texts(a) + Texts(b)
  {
    if b == [] {
      assert a + b == a;
    } else {
      assert (a + b)[..|a + b| - 1] == a + b[..|b| - 1];
      TextsConcat(a, b[..|b| - 1]);
    }
  }

  lemma TextsOfFirst(first: Run, rest: seq<Run>)
    ensures Texts([first] + rest) == first.text + Texts(rest)
  {
    TextsConcat([first], rest);
    assert Texts([first]) == Texts([]) + first.text;
  }

  /** `colourise`: one run a token, scanning from the left. */
  method Colourise(s: string, k: Classes) returns (runs: seq<Run>)
    ensures runs == Colourised(s, k)
    ensures Texts(runs) == s
  {
    if WholeComment(s, k) {
      runs := [Run(s, Comment)];
    } else {
      runs := Tokenise(s, k);
    }
    ColouringLosesNothing(s, k);
  }

  method Tokenise(s: string, k: Classes) returns (runs: seq<Run>)
    ensures runs == Tokens(s, 0, k)
  {
    runs := [];
    var p := 0;
    while p < |s|
      invariant p <= |s|
      invariant runs + Tokens(s, p, k) == Tokens(s, 0, k)
    {
      var e := TokenAt(s, p, k).1;
      var tok := s[p..e];
      Regroup(runs, FirstRun(s, p, k), Tokens(s, e, k));
      runs := runs + [Run(tok, InkOf(tok, k))];
      p := e;
    }
  }

  lemma Regroup(done: seq<Run>, next: Run, rest: seq<Run>)
    ensures done + ([next] + rest) == done + [next] + rest
  {
  }

  lemma ColouringLosesNothing(s: string, k: Classes)
    ensures Texts(Colourised(s, k)) == s
  {
    if WholeComment(s, k) {
      assert Texts([Run(s, Comment)]) == Texts([]) + s;
    } else {
      NoCharacterLost(s, 0, k);
      assert s[0..] == s;
    }
  }

  lemma Rejoin(s: string, p: nat, e: nat, first: Run, rest: seq<Run>)
    requires p <= e <= |s| && first.text == s[p..e] && Texts(rest) == s[e..]
    ensures Texts([first] + rest) == s[p..]
  {
    TextsOfFirst(first, rest);
    assert s[p..] == s[p..e] + s[e..];
  }

  /** The first token of a scan, and where the rest of it starts. */
  lemma Peel(s: string, p: nat, k: Classes) returns (first: Run, e: nat)
    requires p < |s|
    ensures p < e <= |s| && first.text == s[p..e] && Tokens(s, p, k) == [first] + Tokens(s, e, k)
  {
    first, e := FirstRun(s, p, k), TokenAt(s, p, k).1;
  }

  /** For every line the coloured runs concatenate back to exactly the input. */
  lemma {:induction false} NoCharacterLost(s: string, p: nat, k: Classes)
    requires p <= |s|
    ensures Texts(Tokens(s, p, k)) == s[p..]
    decreases |s| - p
  {
    if p < |s| {
      var first, e := Peel(s, p, k);
      NoCharacterLost(s, e, k);
      Rejoin(s, p, e, first, Tokens(s, e, k));
    }
  }

  // ----- what a token is

  /** The character before `p` does not belong to the word that starts there. */
  ghost predicate Fresh(s: string, p: nat, k: Classes)
    requires p <= |s|
  {
    p == 0 || p == |s| || !(k.word(s[p - 1]) && k.word(s[p]))
  }

  /** No token ends inside a word, so the next one starts on a word's first character. */
  lemma TokensEndCleanly(s: string, p: nat, k: Classes)
    requires k.Valid() && p < |s|
    ensures Fresh(s, TokenAt(s, p, k).1, k)
  {
    var t := TokenAt(s, p, k);
    if t.0 == Note && t.1 < |s| { assert s[t.1] == '\n'; }
    if t.0 == Number {
      assert k.digit(s[t.1 - 1]);
    }
  }

  /** A character that starts none of the longer tokens. */
  ghost predicate Alone(s: string, p: nat, k: Classes)
    requires p < |s|
  {
    && !k.word(s[p]) && !k.space(s[p]) && !CommentAt(s, p)
    && (s[p] in "\"'" ==> forall i :: p < i < |s| ==> s[i] != s[p])
  }

  /** Exactly one maximal token of its class: digits and words extend as far as they can both ways,
      white space to the right, a string runs to its first closing quote, a comment to the line's end,
      and anything else is one character that starts none of these. */
  lemma TokenIsMaximal(s: string, p: nat, k: Classes)
    requires k.Valid() && p < |s| && Fresh(s, p, k)
    ensures var (kind, e) := TokenAt(s, p, k);
      match kind
      case Str => e - p >= 2 && s[p] in "\"'" && s[e - 1] == s[p] && forall i :: p < i < e - 1 ==> s[i] != s[p]
      case Note => CommentAt(s, p) && (forall i :: p <= i < e ==> s[i] != '\n') && (e == |s| || s[e] == '\n')
      case Number => WordRun(s, p, e, k) && forall i :: p <= i < e ==> k.digit(s[i])
      case Word => WordRun(s, p, e, k) && exists i :: p <= i < e && !k.digit(s[i])
      case Space => (forall i :: p <= i < e ==> k.space(s[i])) && (e == |s| || !k.space(s[e]))
      case Single => e == p + 1 && Alone(s, p, k)
  {
    match TokenAt(s, p, k).0
    case Number => NumberIsWhole(s, p, k);
    case Word => WordIsNoNumber(s, p, k);
    case _ =>
  }

  lemma NumberIsWhole(s: string, p: nat, k: Classes)
    requires k.Valid() && p < |s| && Fresh(s, p, k) && NumberAt(s, p, k)
    ensures WordRun(s, p, RunEnd(s, p, k.digit), k)
  {
    var e := RunEnd(s, p, k.digit);
    assert k.digit(s[e - 1]) && k.word(s[e - 1]);
  }

  lemma WordIsNoNumber(s: string, p: nat, k: Classes)
    requires k.Valid() && p < |s| && Fresh(s, p, k) && k.word(s[p]) && !NumberAt(s, p, k)
    ensures var e := RunEnd(s, p, k.word); WordRun(s, p, e, k) && exists i :: p <= i < e && !k.digit(s[i])
  {
    var e := RunEnd(s, p, k.word);
    if forall i :: p <= i < e ==> k.digit(s[i]) {
      RunEndAgrees(s, p, e, k.digit);
      DigitsAreANumber(s, p, e, k);
    }
  }

  lemma {:induction false} RunEndAgrees(s: string, p: nat, e: nat, f: char -> bool)
    requires p <= e <= |s| && (forall i :: p <= i < e ==> f(s[i])) && (e == |s| || !f(s[e]))
    ensures RunEnd(s, p, f) == e
    decreases e - p
  {
    if p < e { RunEndAgrees(s, p + 1, e, f); }
  }

  lemma DigitsAreANumber(s: string, p: nat, e: nat, k: Classes)
    requires k.Valid() && p < e <= |s| && RunEnd(s, p, k.digit) == e && Fresh(s, p, k)
    requires e == |s| || !k.word(s[e])
    ensures NumberAt(s, p, k)
  {
    assert k.digit(s[e - 1]);
  }

  /** `s[p..e]` is a whole word: word characters only, and none on either side. */
  ghost predicate WordRun(s: string, p: nat, e: nat, k: Classes)
    requires p < e <= |s|
  {
    && (forall i :: p <= i < e ==> k.word(s[i]))
    && (p == 0 || !k.word(s[p - 1])) && (e == |s| || !k.word(s[e]))
  }

  /** The colours follow the kinds: only strings (and a quote with no partner) are string-coloured, only
      comments (and a lone hash) comment-coloured, just what is all numerals number-coloured, numbers among
      it, and every keyword takes the keyword colour unless one of those came first. */
  lemma InkFollowsKind(s: string, p: nat, k: Classes)
    requires k.Valid() && p < |s| && Fresh(s, p, k)
    ensures var (kind, e) := TokenAt(s, p, k); var ink := InkOf(s[p..e], k);
      && (ink == String <==> s[p] in "\"'")
      && (ink == Comment <==> kind == Note || s[p] == '#')
      && (kind == Number ==> ink == Digits) && (ink == Digits ==> kind == Number || kind == Word)
      && (ink == Keyword <==> k.keyword(s[p..e]) && ink !in {String, Comment, Digits})
      && (ink == Digits <==> All(s[p..e], k.numeral))
      && (kind == Word && k.keyword(s[p..e]) ==> ink == Keyword || ink == Digits)
      && (ink == Text <==> (kind == Word || kind == Space) && ink !in {Digits, Keyword})
      && (ink == Punct ==> kind == Single)
  {
    TokenStarts(s, p, k);
    if TokenAt(s, p, k).0 == Number { NumberIsNumerals(s, p, k); }
    if All(s[p..TokenAt(s, p, k).1], k.numeral) { NumeralsAreWord(s, p, k); }
    PlainTokens(s, p, k);
  }

  /** White space is all white space, a word all word characters, and nothing else is either. */
  lemma PlainTokens(s: string, p: nat, k: Classes)
    requires k.Valid() && p < |s| && Fresh(s, p, k)
    ensures var (kind, e) := TokenAt(s, p, k);
      && (kind == Space ==> All(s[p..e], k.space))
      && (kind == Word || kind == Number ==> All(s[p..e], k.word))
      && (All(s[p..e], k.space) ==> kind == Space) && (All(s[p..e], k.word) ==> kind == Word || kind == Number)
  {
    TokenIsMaximal(s, p, k);
    assert s[p..TokenAt(s, p, k).1][0] == s[p];
  }

  /** A line is one comment run, indent and all, exactly when its first ink begins a comment; every other line
      is the runs of its tokens. */
  lemma CommentLineIs(s: string, k: Classes, ink: nat)
    requires k.Valid() && ink <= |s| && (forall i :: 0 <= i < ink ==> k.space(s[i])) && (ink < |s| ==> !k.space(s[ink]))
    ensures var comment := ink < |s| && (s[ink] == '#' || (ink + 1 < |s| && s[ink] == '/' && s[ink + 1] == '/'));
      Colourised(s, k) == if comment then [Run(s, Comment)] else Tokens(s, 0, k)
  {
    RunEndAgrees(s, 0, ink, k.space);
    var rest := s[ink..];
    assert Stripped(s, k) == rest;
    if rest != [] { assert rest[..1] == [rest[0]]; }
    if |rest| > 1 { assert rest[..2] == [rest[0], rest[1]]; }
  }

  lemma HeadOfSlice(s: string, p: nat, e: nat)
    requires p < e <= |s|
    ensures s[p..e][..1] == [s[p]]
    ensures p + 2 <= e ==> s[p..e][..2] == [s[p], s[p + 1]]
  {
  }

  lemma TokenStarts(s: string, p: nat, k: Classes)
    requires k.Valid() && p < |s| && Fresh(s, p, k)
    ensures var (kind, e) := TokenAt(s, p, k);
      && s[p..e][0] == s[p] && (StartsWith(s[p..e], "#") <==> s[p] == '#') && (StartsWith(s[p..e], "//") <==> kind == Note)
      && (kind == Note ==> s[p] == '/') && (kind == Number || kind == Word ==> k.word(s[p]))
  {
    var (kind, e) := TokenAt(s, p, k);
    var tok := s[p..e];
    HeadOfSlice(s, p, e);
    TokenIsMaximal(s, p, k);
  }

  lemma NumberIsNumerals(s: string, p: nat, k: Classes)
    requires k.Valid() && p < |s| && TokenAt(s, p, k).0 == Number
    ensures All(s[p..TokenAt(s, p, k).1], k.numeral)
  {
  }

  lemma NumeralsAreWord(s: string, p: nat, k: Classes)
    requires k.Valid() && p < |s| && All(s[p..TokenAt(s, p, k).1], k.numeral)
    ensures TokenAt(s, p, k).0 == Number || TokenAt(s, p, k).0 == Word
  {
    assert s[p..TokenAt(s, p, k).1][0] == s[p];
  }

  /** Where each token of the scan from `p` on starts. */
  function Starts(s: string, p: nat, k: Classes): seq<nat>
    requires p <= |s|
    decreases |s| - p
  {
    if p == |s| then [] else [p] + Starts(s, TokenAt(s, p, k).1, k)
  }

  /** Every run of a tokenised line is the maximal token at its start: the scan never enters a word. */
  lemma {:induction false} EveryTokenIsMaximal(s: string, p: nat, k: Classes)
    requires k.Valid() && p <= |s| && Fresh(s, p, k)
    ensures |Tokens(s, p, k)| == |Starts(s, p, k)|
    ensures forall i :: 0 <= i < |Starts(s, p, k)| ==> var q := Starts(s, p, k)[i];
      q < |s| && Fresh(s, q, k) && Tokens(s, p, k)[i].text == s[q..TokenAt(s, q, k).1]
    decreases |s| - p
  {
    if p < |s| {
      TokensEndCleanly(s, p, k);
      EveryTokenIsMaximal(s, TokenAt(s, p, k).1, k);
    }
  }
}
