/** The texts of the hardware test programs: words and letter case as Python splits and raises them,
    identifiers, and the templates that a run renders. */
module HilText {
  import opened Prelude

  // -------------------------------------------------------------------------------------- words

  /** What str.split and str.strip take for white space. */
  predicate Blank(c: char) {
    || '\t' <= c <= '\r' || '\U{1C}' <= c <= ' ' || c == '\U{85}' || c == '\U{A0}' || c == '\U{1680}'
    || '\U{2000}' <= c <= '\U{200A}' || c == '\U{2028}' || c == '\U{2029}' || c == '\U{202F}'
    || c == '\U{205F}' || c == '\U{3000}'
  }

  predicate Solid(s: string) {
    s != "" && forall i | 0 <= i < |s| :: !Blank(s[i])
  }

  predicate AllBlank(s: string) {
    forall i | 0 <= i < |s| :: Blank(s[i])
  }

  /** The white space in front, and what is behind it. */
  function Margin(s: string): (margin: string)
    ensures AllBlank(margin)
  {
    if s == "" || !Blank(s[0]) then "" else [s[0]] + Margin(s[1..])
  }

  function Unindented(s: string): (rest: string)
    ensures |rest| <= |s| && (rest == "" || !Blank(rest[0]))
  {
    if s == "" || !Blank(s[0]) then s else Unindented(s[1..])
  }

  /** The word in front, and what is behind it. */
  function Head(s: string): (word: string)
    ensures word == "" || Solid(word)
    ensures word == "" <==> s == "" || Blank(s[0])
  {
    if s == "" || Blank(s[0]) then "" else [s[0]] + Head(s[1..])
  }

  function Tail(s: string): (rest: string)
    ensures |rest| <= |s| && (s != "" && !Blank(s[0]) ==> |rest| < |s|) && (rest == "" || Blank(rest[0]))
  {
    if s == "" || Blank(s[0]) then s else Tail(s[1..])
  }

  function Words(s: string): seq<string>
    decreases |s|
  {
    var rest := Unindented(s);
    if rest == "" then [] else [Head(rest)] + Words(Tail(rest))
  }

  // -------------------------------------------------------------------------------- letter case

  /** The capital form of a character, as far as it can make a part of one of the names that are
      compared; any other character stays as it is. */
  function Capital(c: char): string {
    if 'a' <= c <= 'z' then [(c as int - 32) as char]
    else if c == '\U{131}' then "I"
    else if c == '\U{17F}' then "S"
    else if c == '\U{FB05}' || c == '\U{FB06}' then "ST"
    else [c]
  }

  function Upper(s: string): string {
    if s == "" then "" else Capital(s[0]) + Upper(s[1..])
  }

  /** Braces have no other case. */
  lemma {:induction false} UpperKeepsBraces(s: string, c: char)
    requires c == '{' || c == '}'
    ensures c in s ==> c in Upper(s)
  {
    if s != "" {
      UpperKeepsBraces(s[1..], c);
    }
  }

  // -------------------------------------------------------------------------------- identifiers

  predicate Letter(c: char) {
    'A' <= c <= 'Z' || 'a' <= c <= 'z'
  }

  predicate NameChar(c: char) {
    Letter(c) || '0' <= c <= '9' || c == '_' || c == '.' || c == '-'
  }

  predicate Identifier(s: string) {
    s != "" && Letter(s[0]) && forall c | c in s :: NameChar(c)
  }

  predicate EndpointId(s: string) {
    s != "" && forall c | c in s :: NameChar(c) || c == ':'
  }

  /** More than white space. */
  predicate HasText(s: string) {
    exists i | 0 <= i < |s| :: !Blank(s[i])
  }

  // ----------------------------------------------------------------------------- decimal numbers

  function Digits(n: nat): (s: string)
    ensures s != "" && forall i | 0 <= i < |s| :: '0' <= s[i] <= '9'
  {
    var last := [(n % 10 + '0' as int) as char];
    if n < 10 then last else Digits(n / 10) + last
  }

  function Decimal(n: int): (s: string)
    ensures Solid(s)
  {
    if n < 0 then "-" + Digits(-n) else Digits(n)
  }

  lemma {:induction false} DigitsDiffer(a: nat, b: nat)
    requires Digits(a) == Digits(b)
    ensures a == b
  {
    var s, t := Digits(a), Digits(b);
    assert s[|s| - 1] == (a % 10 + '0' as int) as char;
    assert t[|t| - 1] == (b % 10 + '0' as int) as char;
    if a >= 10 && b >= 10 {
      assert s[..|s| - 1] == Digits(a / 10) && t[..|t| - 1] == Digits(b / 10);
      DigitsDiffer(a / 10, b / 10);
    }
  }

  /** Different numbers have different texts. */
  lemma {:induction false} DecimalIsInjective(a: int, b: int)
    requires Decimal(a) == Decimal(b)
    ensures a == b
  {
    assert a >= 0 ==> Decimal(a)[0] != '-';
    assert b >= 0 ==> Decimal(b)[0] != '-';
    if a < 0 {
      assert Decimal(a)[1..] == Digits(-a) && Decimal(b)[1..] == Digits(-b);
      DigitsDiffer(-a, -b);
    } else {
      DigitsDiffer(a, b);
    }
  }

  // --------------------------------------------------------------------------------- templates

  datatype Piece = Char(c: char) | Hole(name: string)

  /** The characters that end a name, or that no admitted name can have. */
  predicate Special(c: char) {
    c == '{' || c == '}' || c == '!' || c == ':' || c == '['
  }

  function NameLength(s: string): (n: nat)
    ensures n <= |s| && (forall i | 0 <= i < n :: !Special(s[i])) && (n < |s| ==> Special(s[n]))
  {
    if s == "" || Special(s[0]) then 0 else 1 + NameLength(s[1..])
  }

  function Before(piece: Piece, rest: Option<seq<Piece>>): Option<seq<Piece>> {
    if rest.Some? then Some([piece] + rest.value) else None
  }

  /** The pieces of a template: a doubled brace is a brace, {name} and {name:} are holes; nothing else
      with a brace in it is admitted. */
  function Pieces(s: string): Option<seq<Piece>>
    decreases |s|
  {
    if s == "" then Some([])
    else if s[0] != '{' && s[0] != '}' then Before(Char(s[0]), Pieces(s[1..]))
    else if |s| > 1 && s[1] == s[0] then Before(Char(s[0]), Pieces(s[2..]))
    else if s[0] == '}' then None
    else
      var n := NameLength(s[1..]);
      if n + 1 < |s| && s[n + 1] == '}' then Before(Hole(s[1..n + 1]), Pieces(s[n + 2..]))
      else if n + 2 < |s| && s[n + 1] == ':' && s[n + 2] == '}' then Before(Hole(s[1..n + 1]), Pieces(s[n + 3..]))
      else None
  }

  /** A template whose holes are all admitted. */
  predicate TemplateFits(s: string, names: set<string>) {
    var pieces := Pieces(s);
    pieces.Some? && forall piece | piece in pieces.value && piece.Hole? :: piece.name in names
  }

  datatype Datum = Integer(number: int) | Text(text: string)

  function TextOf(v: Datum): string {
    match v
    case Integer(number) => Decimal(number)
    case Text(text) => text
  }

  /** What Python makes of a datum: the text of an attribute of it, and a number. */
  datatype Python = Python(attribute: (Datum, string) -> Option<string>, number: string -> Option<real>)

  type Context = map<string, Datum>

  function FirstDot(s: string): (n: nat)
    ensures n <= |s| && (forall i | 0 <= i < n :: s[i] != '.') && (n < |s| ==> s[n] == '.')
  {
    if s == "" || s[0] == '.' then 0 else 1 + FirstDot(s[1..])
  }

  /** The text in a hole: a dot in the name asks for an attribute of the value named before it. */
  function Filled(py: Python, context: Context, name: string): Option<string> {
    var n := FirstDot(name);
    if name[..n] !in context then None
    else if n == |name| then Some(TextOf(context[name[..n]]))
    else py.attribute(context[name[..n]], name[n + 1..])
  }

  function RenderedPieces(py: Python, context: Context, pieces: seq<Piece>): Option<string> {
    if pieces == [] then Some("")
    else
      var first := match pieces[0] case Char(c) => Some([c]) case Hole(name) => Filled(py, context, name);
      var rest := RenderedPieces(py, context, pieces[1..]);
      if first.Some? && rest.Some? then Some(first.value + rest.value) else None
  }

  /** str.format_map, on templates that have been admitted. */
  function Rendered(py: Python, context: Context, s: string): Option<string> {
    var pieces := Pieces(s);
    if pieces.Some? then RenderedPieces(py, context, pieces.value) else None
  }

  // ------------------------------------------------------------------- rendering part by part

  predicate Braceless(s: string) {
    '{' !in s && '}' !in s
  }

  function Joined(a: Option<string>, b: Option<string>): Option<string> {
    if a.Some? && b.Some? then Some(a.value + b.value) else None
  }

  lemma {:induction false} CharRenders(py: Python, context: Context, c: char, rest: string)
    requires c != '{' && c != '}'
    ensures Rendered(py, context, [c] + rest) == Joined(Some([c]), Rendered(py, context, rest))
  {
    assert ([c] + rest)[1..] == rest;
    if Pieces(rest).Some? {
      assert ([Char(c)] + Pieces(rest).value)[1..] == Pieces(rest).value;
    }
  }

  /** A text without braces renders as itself. */
  lemma {:induction false} BracelessRenders(py: Python, context: Context, s: string, rest: string)
    requires Braceless(s)
    ensures Rendered(py, context, s + rest) == Joined(Some(s), Rendered(py, context, rest))
  {
    hide Rendered;
    if s == "" {
      assert s + rest == rest;
      if Rendered(py, context, rest).Some? {
        assert "" + Rendered(py, context, rest).value == Rendered(py, context, rest).value;
      }
    } else {
      BracelessRenders(py, context, s[1..], rest);
      CharRenders(py, context, s[0], s[1..] + rest);
      assert s + rest == [s[0]] + (s[1..] + rest);
      if Rendered(py, context, rest).Some? {
        assert [s[0]] + (s[1..] + Rendered(py, context, rest).value) == s + Rendered(py, context, rest).value;
      }
    }
  }

  /** The hole of a name. */
  function HoleOf(name: string): string {
    "{" + name + "}"
  }

  lemma {:induction false} NameEnds(name: string, rest: string)
    requires forall c | c in name :: !Special(c)
    ensures NameLength(name + "}" + rest) == |name|
  {
    if name != "" {
      NameEnds(name[1..], rest);
      assert (name + "}" + rest)[1..] == name[1..] + "}" + rest;
    } else {
      assert (name + "}" + rest)[0] == '}';
    }
  }

  lemma {:induction false} HolePieces(name: string, rest: string)
    requires name != "" && forall c | c in name :: !Special(c)
    ensures Pieces(HoleOf(name) + rest) == Before(Hole(name), Pieces(rest))
  {
    var s := HoleOf(name) + rest;
    assert s[1..] == name + "}" + rest;
    assert s[1] == name[0];
    NameEnds(name, rest);
    assert s[1..|name| + 1] == name && s[|name| + 2..] == rest;
  }

  /** A hole renders as what fills it. */
  lemma {:induction false} HoleRenders(py: Python, context: Context, name: string, rest: string)
    requires name != "" && forall c | c in name :: !Special(c)
    ensures Rendered(py, context, HoleOf(name) + rest) == Joined(Filled(py, context, name), Rendered(py, context, rest))
  {
    HolePieces(name, rest);
    if Pieces(rest).Some? {
      assert ([Hole(name)] + Pieces(rest).value)[1..] == Pieces(rest).value;
    }
  }

  /** A name without a dot is filled with its value. */
  lemma {:induction false} PlainName(py: Python, context: Context, name: string)
    requires '.' !in name && name in context
    ensures Filled(py, context, name) == Some(TextOf(context[name]))
  {
    assert name[..FirstDot(name)] == name;
  }

  lemma {:induction false} IdentifierIsName(s: string)
    requires Identifier(s)
    ensures s != "" && forall c | c in s :: !Special(c)
  {
  }

  // ------------------------------------------------------------------------ the words of a rendering

  lemma {:induction false} MarginAndRest(s: string)
    ensures s == Margin(s) + Unindented(s)
  {
    hide Blank;
    if s != "" && Blank(s[0]) {
      MarginAndRest(s[1..]);
      assert s == [s[0]] + s[1..];
    }
  }

  lemma {:induction false} HeadAndTail(s: string)
    ensures s == Head(s) + Tail(s)
  {
    hide Blank;
    if s != "" && !Blank(s[0]) {
      HeadAndTail(s[1..]);
      assert s == [s[0]] + s[1..];
    }
  }

  lemma {:induction false} HeadIs(word: string, rest: string)
    requires (word == "" || Solid(word)) && (rest == "" || Blank(rest[0]))
    ensures Head(word + rest) == word && Tail(word + rest) == rest
  {
    hide Blank;
    if word == "" {
      assert word + rest == rest;
    } else {
      HeadIs(word[1..], rest);
      assert (word + rest)[1..] == word[1..] + rest;
    }
  }

  /** A word, followed by white space or nothing. */
  lemma {:induction false} WordInFront(word: string, rest: string)
    requires Solid(word) && (rest == "" || Blank(rest[0]))
    ensures Words(word + rest) == [word] + Words(rest)
  {
    hide Blank, Head, Tail;
    HeadIs(word, rest);
    assert (word + rest)[0] == word[0];
  }

  lemma {:induction false} UnindentedIs(blanks: string, rest: string)
    requires AllBlank(blanks)
    ensures Unindented(blanks + rest) == Unindented(rest)
  {
    hide Blank;
    if blanks == "" {
      assert blanks + rest == rest;
    } else {
      UnindentedIs(blanks[1..], rest);
      assert (blanks + rest)[1..] == blanks[1..] + rest;
    }
  }

  lemma {:induction false} BlanksInFront(blanks: string, rest: string)
    requires AllBlank(blanks)
    ensures Words(blanks + rest) == Words(rest)
  {
    hide Blank, Head, Tail, Unindented;
    UnindentedIs(blanks, rest);
  }

  /** Every word of the template is without braces or a hole, and is rendered as a word. */
  predicate WordsRender(py: Python, context: Context, words: seq<string>, texts: seq<string>) {
    && |texts| == |words|
    && forall i | 0 <= i < |words| :: WordRenders(py, context, words[i], texts[i])
  }

  predicate WordRenders(py: Python, context: Context, word: string, text: string) {
    && Solid(text)
    && ((Braceless(word) && text == word)
        || (|word| > 2 && word == HoleOf(word[1..|word| - 1])
            && (forall c | c in word[1..|word| - 1] :: !Special(c))
            && Filled(py, context, word[1..|word| - 1]) == Some(text)))
  }

  lemma {:induction false} WordRendersAt(py: Python, context: Context, word: string, text: string, rest: string)
    requires WordRenders(py, context, word, text)
    ensures Rendered(py, context, word + rest) == Joined(Some(text), Rendered(py, context, rest))
  {
    if Braceless(word) {
      BracelessRenders(py, context, word, rest);
    } else {
      HoleRenders(py, context, word[1..|word| - 1], rest);
    }
  }

  lemma {:induction false} BlanksRender(py: Python, context: Context, blanks: string, rest: string)
    requires AllBlank(blanks)
    ensures Rendered(py, context, blanks + rest) == Joined(Some(blanks), Rendered(py, context, rest))
  {
    BracelessRenders(py, context, blanks, rest);
  }

  /** White space stays in front. */
  lemma {:induction false} TailRenders(py: Python, context: Context, tail: string)
    requires (tail == "" || Blank(tail[0])) && Rendered(py, context, tail).Some?
    ensures var t := Rendered(py, context, tail).value; t == "" || Blank(t[0])
  {
    if tail != "" {
      assert tail == tail[..1] + tail[1..];
      BlanksRender(py, context, tail[..1], tail[1..]);
    }
  }

  /** The parts of a text with a first word: white space, the word, and the rest. */
  lemma {:induction false} FirstParts(s: string) returns (blanks: string, word: string, tail: string)
    ensures s == blanks + (word + tail) && AllBlank(blanks)
    ensures word == "" ==> tail == "" && Words(s) == []
    ensures word != "" ==>
              && Solid(word) && (tail == "" || Blank(tail[0])) && |tail| < |s| && Words(s) == [word] + Words(tail)
  {
    hide Blank, Margin, Unindented, Head, Tail;
    var rest := Unindented(s);
    blanks, word, tail := Margin(s), Head(rest), Tail(rest);
    MarginAndRest(s);
    HeadAndTail(rest);
  }

  lemma {:induction false} RestRenders(
    py: Python, context: Context, word: string, words: seq<string>, texts: seq<string>)
    requires WordsRender(py, context, [word] + words, texts)
    ensures texts != [] && WordRenders(py, context, word, texts[0]) && WordsRender(py, context, words, texts[1..])
  {
    hide WordRenders;
    var all := [word] + words;
    assert WordRenders(py, context, all[0], texts[0]);
    forall i | 0 <= i < |words| ensures WordRenders(py, context, words[i], texts[1..][i]) {
      assert WordRenders(py, context, all[i + 1], texts[i + 1]);
    }
  }

  /** The words of a rendered command are the words of its template, each rendered on its own: a value
      that is one word cannot add or take away any. */
  lemma {:induction false} RenderedWords(py: Python, context: Context, s: string, texts: seq<string>)
    requires WordsRender(py, context, Words(s), texts)
    ensures Rendered(py, context, s).Some? && Words(Rendered(py, context, s).value) == texts
    decreases |s|
  {
    var blanks, word, tail := FirstParts(s);
    if word == "" {
      assert texts == [];
    } else {
      RestRenders(py, context, word, Words(tail), texts);
    }
    hide Rendered, Words, WordRenders, WordsRender, Blank, Solid;
    BlanksRender(py, context, blanks, word + tail);
    if word == "" {
      NothingRenders(py, context);
      assert blanks + "" == blanks;
      BlanksInFront(blanks, "");
    } else {
      RenderedWords(py, context, tail, texts[1..]);
      WordRendersAt(py, context, word, texts[0], tail);
      TailRenders(py, context, tail);
      WordIsSolid(py, context, word, texts[0]);
      WordInFront(texts[0], Rendered(py, context, tail).value);
      BlanksInFront(blanks, texts[0] + Rendered(py, context, tail).value);
    }
  }

  /** A word without braces, or a hole. */
  predicate WordShape(word: string) {
    || Braceless(word)
    || (|word| > 2 && word == HoleOf(word[1..|word| - 1]) && forall c | c in word[1..|word| - 1] :: !Special(c))
  }

  /** A hole that cannot be filled fails the whole template. */
  lemma {:induction false} UnfilledHoleFails(py: Python, context: Context, s: string, i: nat)
    requires i < |Words(s)| && forall j | 0 <= j <= i :: WordShape(Words(s)[j])
    requires |Words(s)[i]| > 2 && !Braceless(Words(s)[i])
    requires Filled(py, context, Words(s)[i][1..|Words(s)[i]| - 1]).None?
    ensures Rendered(py, context, s).None?
    decreases |s|
  {
    var blanks, word, tail := FirstParts(s);
    hide Rendered, Words, Blank, Solid, Filled;
    BlanksRender(py, context, blanks, word + tail);
    assert WordShape(Words(s)[0]);
    if i > 0 {
      forall j | 0 <= j <= i - 1 ensures WordShape(Words(tail)[j]) {
        assert Words(tail)[j] == Words(s)[j + 1];
      }
      UnfilledHoleFails(py, context, tail, i - 1);
    }
    if Braceless(word) {
      BracelessRenders(py, context, word, tail);
    } else {
      HoleRenders(py, context, word[1..|word| - 1], tail);
    }
  }

  lemma {:induction false} NothingRenders(py: Python, context: Context)
    ensures Rendered(py, context, "") == Some("") && Words("") == []
  {
  }

  lemma {:induction false} WordIsSolid(py: Python, context: Context, word: string, text: string)
    requires WordRenders(py, context, word, text)
    ensures Solid(text)
  {
  }

  /** A first word without braces is still the first word after rendering, whatever the values are. */
  lemma {:induction false} FirstWordStays(py: Python, context: Context, s: string)
    requires Words(s) != [] && Braceless(Words(s)[0]) && Rendered(py, context, s).Some?
    ensures Words(Rendered(py, context, s).value) != [] && Words(Rendered(py, context, s).value)[0] == Words(s)[0]
  {
    var blanks, word, tail := FirstParts(s);
    hide Rendered, Words, Blank, Solid;
    BlanksRender(py, context, blanks, word + tail);
    BracelessRenders(py, context, word, tail);
    TailRenders(py, context, tail);
    WordInFront(word, Rendered(py, context, tail).value);
    BlanksInFront(blanks, word + Rendered(py, context, tail).value);
  }
}
