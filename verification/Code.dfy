/** Share codes: generation and normalisation (internal/code/code.go). */
module Code {
  import opened ByteStrings

  const CODE_WORD_COUNT := 6

  // ----- characters

  /** unicode.IsSpace */
  predicate IsSpace(c: char)
  {
    var n := c as int;
    9 <= n <= 13 || n == 32 || n == 0x85 || n == 0xA0 || n == 0x1680 || 0x2000 <= n <= 0x200A
    || n == 0x2028 || n == 0x2029 || n == 0x202F || n == 0x205F || n == 0x3000
  }

  predicate IsSeparator(c: char)
  {
    IsSpace(c) || c == '-'
  }

  /** unicode.ToLower leaves spaces and dashes alone and produces none from other characters. */
  type CaseMap = f: char -> char
    | f('a') == 'a' && f('-') == '-' && forall c :: (IsSpace(f(c)) <==> IsSpace(c)) && (f(c) == '-' <==> c == '-')
    witness (c: char) => c

  const ToLower: CaseMap

  predicate IsWord(w: string)
  {
    w != "" && forall i :: 0 <= i < |w| ==> !IsSeparator(w[i]) && ToLower(w[i]) == w[i]
  }

  /** The lines of the word list file: lower-case words without spaces or dashes. */
  type GoodList = ws: seq<string> | ws != [] && forall i :: 0 <= i < |ws| ==> IsWord(ws[i]) witness ["a"]

  const Wordlist: GoodList

  // ----- the string functions

  function MapAll(f: char -> char, s: string): (r: string)
    ensures |r| == |s| && forall i :: 0 <= i < |s| ==> r[i] == f(s[i])
  {
    seq(|s|, i requires 0 <= i < |s| => f(s[i]))
  }

  function TrimLeft(s: string): string
  {
    if s != "" && IsSpace(s[0]) then TrimLeft(s[1..]) else s
  }

  function TrimRight(s: string): string
  {
    if s != "" && IsSpace(s[|s| - 1]) then TrimRight(s[..|s| - 1]) else s
  }

  function TrimSpace(s: string): string
  {
    TrimRight(TrimLeft(s))
  }

  /** The length of the longest prefix without a separator. */
  function Run(s: string, sep: char -> bool): (n: nat)
    ensures n <= |s| && (forall i :: 0 <= i < n ==> !sep(s[i])) && (n < |s| ==> sep(s[n]))
  {
    if s == "" || sep(s[0]) then 0 else 1 + Run(s[1..], sep)
  }

  /** The maximal stretches without a separator, in order. */
  function Fields(s: string, sep: char -> bool): seq<string>
    decreases |s|
  {
    if s == "" then []
    else if sep(s[0]) then Fields(s[1..], sep)
    else
      var n := Run(s, sep);
      [s[..n]] + Fields(s[n..], sep)
  }

  function DashToSpace(c: char): char
  {
    if c == '-' then ' ' else c
  }

  function Join(words: seq<string>): string
  {
    if words == [] then "" else if |words| == 1 then words[0] else words[0] + "-" + Join(words[1..])
  }

  // ----- normalisation

  datatype Outcome = Code(text: string) | WrongCount(n: nat) | InvalidWord(word: string)

  function FirstInvalid(words: seq<string>): Option<string>
  {
    if words == [] then None else if words[0] !in Wordlist then Some(words[0]) else FirstInvalid(words[1..])
  }

  /** The chain of string calls. */
  function SplitInput(input: string): seq<string>
  {
    Fields(MapAll(DashToSpace, MapAll(ToLower, TrimSpace(input))), IsSpace)
  }

  function Normalize(input: string): Outcome
  {
    var words := SplitInput(input);
    if |words| != CODE_WORD_COUNT then WrongCount(|words|)
    else if FirstInvalid(words).Some? then InvalidWord(FirstInvalid(words).value)
    else Code(Join(words))
  }

  method BuildWordSet() returns (wordSet: set<string>)
    ensures forall w :: w in wordSet <==> w in Wordlist
  {
    wordSet := {};
    for i := 0 to |Wordlist|
      invariant forall w :: w in wordSet <==> w in Wordlist[..i]
    {
      TrimWord(Wordlist[i]);
      assert Wordlist[..i + 1] == Wordlist[..i] + [Wordlist[i]];
      wordSet := wordSet + {TrimSpace(Wordlist[i])};
    }
    assert Wordlist[..|Wordlist|] == Wordlist;
  }

  lemma TrimWord(w: string)
    requires IsWord(w)
    ensures TrimSpace(w) == w
  {}

  method NormalizeInput(input: string, wordSet: set<string>) returns (r: Outcome)
    requires forall w :: w in wordSet <==> w in Wordlist
    ensures r == Normalize(input)
  {
    var s := MapAll(ToLower, TrimSpace(input));
    s := MapAll(DashToSpace, s);
    var words := Fields(s, IsSpace);
    if |words| != CODE_WORD_COUNT {
      return WrongCount(|words|);
    }
    for i := 0 to |words|
      invariant FirstInvalid(words) == FirstInvalid(words[i..])
    {
      assert words[i..][1..] == words[i + 1..];
      if words[i] !in wordSet {
        return InvalidWord(words[i]);
      }
    }
    r := Code(Join(words));
  }

  predicate Drawn(draws: seq<nat>)
  {
    |draws| == CODE_WORD_COUNT && forall i :: 0 <= i < |draws| ==> draws[i] < |Wordlist|
  }

  function Picked(draws: seq<nat>): (r: seq<string>)
    requires forall i :: 0 <= i < |draws| ==> draws[i] < |Wordlist|
    ensures |r| == |draws|
  {
    seq(|draws|, i requires 0 <= i < |draws| => Wordlist[draws[i]])
  }

  /** Fills the slice of words from uniform draws. */
  method Generate(draws: seq<nat>) returns (code: string)
    requires Drawn(draws)
    ensures code == Join(Picked(draws))
  {
    var words := new string[CODE_WORD_COUNT](_ => "");
    for i := 0 to words.Length
      invariant words[..i] == Picked(draws)[..i]
    {
      words[i] := Wordlist[draws[i]];
    }
    assert words[..] == Picked(draws);
    code := Join(words[..]);
  }

  // ----- what the chain computes

  /** The words of an input: its maximal stretches without spaces and dashes. */
  function Words(input: string): seq<string>
  {
    Fields(input, IsSeparator)
  }

  function Lowered(words: seq<string>): (r: seq<string>)
    ensures |r| == |words| && forall i :: 0 <= i < |r| ==> r[i] == MapAll(ToLower, words[i])
  {
    seq(|words|, i requires 0 <= i < |words| => MapAll(ToLower, words[i]))
  }

  lemma {:induction false} RunSame(s: string, t: string, sepS: char -> bool, sepT: char -> bool)
    requires |s| == |t| && forall i :: 0 <= i < |s| ==> sepS(s[i]) == sepT(t[i])
    ensures Run(s, sepS) == Run(t, sepT)
  {}

  /** Fields of strings with separators in the same places are the same slices. */
  lemma {:induction false} FieldsSame(s: string, t: string, sepS: char -> bool, sepT: char -> bool, f: char -> char)
    requires |s| == |t| && forall i :: 0 <= i < |s| ==> sepS(s[i]) == sepT(t[i]) && (!sepS(s[i]) ==> t[i] == f(s[i]))
    ensures |Fields(t, sepT)| == |Fields(s, sepS)|
    ensures forall k :: 0 <= k < |Fields(s, sepS)| ==> Fields(t, sepT)[k] == MapAll(f, Fields(s, sepS)[k])
    decreases |s|
  {
    if s != "" {
      if sepS(s[0]) {
        FieldsSame(s[1..], t[1..], sepS, sepT, f);
      } else {
        RunSame(s, t, sepS, sepT);
        var n := Run(s, sepS);
        FieldsSame(s[n..], t[n..], sepS, sepT, f);
        assert t[..n] == MapAll(f, s[..n]);
      }
    }
  }

  lemma {:induction false} TrimLeftKeepsWords(s: string)
    ensures Words(TrimLeft(s)) == Words(s)
  {
    if s != "" && IsSpace(s[0]) {
      TrimLeftKeepsWords(s[1..]);
    }
  }

  /** A separator at the end adds no field. */
  lemma {:induction false} LastSeparator(s: string, sep: char -> bool)
    requires s != "" && sep(s[|s| - 1])
    ensures Fields(s, sep) == Fields(s[..|s| - 1], sep)
    decreases |s|
  {
    var t := s[..|s| - 1];
    if t == "" {
    } else if sep(s[0]) {
      LastSeparator(s[1..], sep);
      assert s[1..][..|s| - 2] == t[1..];
    } else {
      var n := Run(s, sep);
      RunShorter(s, sep);
      LastSeparator(s[n..], sep);
      assert s[n..][..|s| - n - 1] == t[n..] && t[..n] == s[..n];
      assert Fields(t, sep) == [t[..n]] + Fields(t[n..], sep);
    }
  }

  lemma {:induction false} RunShorter(s: string, sep: char -> bool)
    requires s != "" && sep(s[|s| - 1])
    ensures Run(s[..|s| - 1], sep) == Run(s, sep) < |s|
  {
    if |s| > 1 && !sep(s[0]) {
      RunShorter(s[1..], sep);
      assert s[1..][..|s| - 2] == s[..|s| - 1][1..];
    }
  }

  lemma {:induction false} TrimRightKeepsWords(s: string)
    ensures Words(TrimRight(s)) == Words(s)
  {
    if s != "" && IsSpace(s[|s| - 1]) {
      LastSeparator(s, IsSeparator);
      TrimRightKeepsWords(s[..|s| - 1]);
    }
  }

  /** The chain finds the words of the input, in lower case. */
  lemma SplitIsWords(input: string)
    ensures SplitInput(input) == Lowered(Words(input))
  {
    var t := TrimSpace(input);
    TrimLeftKeepsWords(input);
    TrimRightKeepsWords(TrimLeft(input));
    FieldsSame(t, MapAll(DashToSpace, MapAll(ToLower, t)), IsSeparator, IsSpace, ToLower);
  }

  predicate Accepts(words: seq<string>)
  {
    |words| == CODE_WORD_COUNT && forall i :: 0 <= i < |words| ==> words[i] in Wordlist
  }

  lemma {:induction false} FirstInvalidIff(words: seq<string>)
    ensures FirstInvalid(words).None? <==> forall i :: 0 <= i < |words| ==> words[i] in Wordlist
  {
    if words != [] {
      FirstInvalidIff(words[1..]);
      assert words == [words[0]] + words[1..];
    }
  }

  lemma {:induction false} FirstInvalidIs(words: seq<string>) returns (i: nat)
    requires FirstInvalid(words).Some?
    ensures i < |words| && words[i] == FirstInvalid(words).value && words[i] !in Wordlist
    ensures forall j :: 0 <= j < i ==> words[j] in Wordlist
  {
    i := 0;
    if words[0] in Wordlist {
      i := FirstInvalidIs(words[1..]);
      i := i + 1;
    }
  }

  /**
   * An input is accepted exactly when it has six words, each in the list up to case; the result joins them.
   * Otherwise the error says how many words there are if not six, and else which is the first unknown one.
   */
  lemma NormalizeIff(input: string)
    ensures Normalize(input).Code? <==> Accepts(Lowered(Words(input)))
    ensures Normalize(input).Code? ==> Normalize(input).text == Join(Lowered(Words(input)))
    ensures |Words(input)| != 6 <==> Normalize(input).WrongCount?
    ensures |Words(input)| != 6 ==> Normalize(input) == WrongCount(|Words(input)|)
    ensures Normalize(input).InvalidWord? ==>
      exists i :: 0 <= i < 6 && Normalize(input).word == Lowered(Words(input))[i] && Normalize(input).word !in Wordlist
                  && forall j :: 0 <= j < i ==> Lowered(Words(input))[j] in Wordlist
  {
    SplitIsWords(input);
    var words := Lowered(Words(input));
    FirstInvalidIff(words);
    if Normalize(input).InvalidWord? {
      var i := FirstInvalidIs(words);
      assert Normalize(input).word == words[i];
    }
  }

  lemma {:induction false} RunOfWord(w: string, rest: string)
    requires IsWord(w) && (rest == "" || IsSeparator(rest[0]))
    ensures Run(w + rest, IsSeparator) == |w|
  {
    var x := w + rest;
    var n := Run(x, IsSeparator);
    assert forall i :: 0 <= i < |w| ==> x[i] == w[i];
    assert rest != "" ==> x[|w|] == rest[0];
  }

  /** Joining and splitting are inverse on words. */
  lemma {:induction false} WordsOfJoin(words: seq<string>)
    requires forall i :: 0 <= i < |words| ==> IsWord(words[i])
    ensures Words(Join(words)) == words
  {
    hide Run, Fields, Words, IsSeparator;
    WordsOfNothing();
    if words != [] {
      var w, rest := words[0], if |words| == 1 then "" else "-" + Join(words[1..]);
      assert Join(words) == w + rest;
      FieldsOfWord(w, rest);
      if |words| > 1 {
        WordsOfJoin(words[1..]);
        FieldsAfterDash(Join(words[1..]));
      }
      assert words == [w] + words[1..];
    }
  }

  lemma WordsOfNothing()
    ensures Words("") == [] && IsSeparator('-')
  {}

  lemma FieldsOfWord(w: string, rest: string)
    requires IsWord(w) && (rest == "" || IsSeparator(rest[0]))
    ensures Words(w + rest) == [w] + Words(rest)
  {
    RunOfWord(w, rest);
    var x := w + rest;
    assert x[..|w|] == w && x[|w|..] == rest && x[0] == w[0];
  }

  lemma FieldsAfterDash(s: string)
    ensures Words("-" + s) == Words(s)
  {
    assert ("-" + s)[1..] == s;
  }

  lemma ListedWords(words: seq<string>)
    requires forall i :: 0 <= i < |words| ==> words[i] in Wordlist
    ensures forall i :: 0 <= i < |words| ==> IsWord(words[i])
    ensures Lowered(words) == words
  {
    forall i | 0 <= i < |words| ensures IsWord(words[i]) && MapAll(ToLower, words[i]) == words[i] {
      var k :| 0 <= k < |Wordlist| && Wordlist[k] == words[i];
    }
  }

  /** The join of six listed words is accepted and left as it is. */
  lemma NormalFixed(words: seq<string>)
    requires Accepts(words)
    ensures Normalize(Join(words)) == Code(Join(words))
  {
    ListedWords(words);
    WordsOfJoin(words);
    NormalizeIff(Join(words));
  }

  /** The pieces between dashes, empty ones included. */
  function Pieces(s: string): (r: seq<string>)
    ensures r != []
    decreases |s|
  {
    if s == "" then [""]
    else if s[0] == '-' then [""] + Pieces(s[1..])
    else
      var rest := Pieces(s[1..]);
      [[s[0]] + rest[0]] + rest[1..]
  }

  lemma {:induction false} PieceThenRest(w: string, rest: string)
    requires forall i :: 0 <= i < |w| ==> w[i] != '-'
    ensures Pieces(w + rest) == [w + Pieces(rest)[0]] + Pieces(rest)[1..]
    decreases |w|
  {
    var pieces := Pieces(rest);
    if w == "" {
      assert w + rest == rest && "" + pieces[0] == pieces[0] && [pieces[0]] + pieces[1..] == pieces;
    } else {
      assert (w + rest)[0] == w[0] && (w + rest)[1..] == w[1..] + rest;
      PieceThenRest(w[1..], rest);
      assert [w[0]] + (w[1..] + pieces[0]) == w + pieces[0];
    }
  }

  lemma PiecesOfDash(s: string)
    ensures Pieces("") == [""] && Pieces("-" + s) == [""] + Pieces(s)
  {
    assert ("-" + s)[1..] == s;
  }

  /** Splitting at the dashes alone undoes joining. */
  lemma {:induction false} PiecesOfJoin(words: seq<string>)
    requires words != [] && forall i :: 0 <= i < |words| ==> IsWord(words[i])
    ensures Pieces(Join(words)) == words
  {
    hide Pieces, IsSpace;
    var w := words[0];
    if |words| == 1 {
      PieceThenRest(w, "");
      PiecesOfDash("");
      assert w + "" == w && words == [w];
    } else {
      var rest := Join(words[1..]);
      PiecesOfJoin(words[1..]);
      PieceThenRest(w, "-" + rest);
      PiecesOfDash(rest);
      assert Join(words) == w + ("-" + rest) && words == [w] + words[1..] && w + "" == w;
    }
  }

  lemma {:induction false} JoinHasNoSpace(words: seq<string>)
    requires forall i :: 0 <= i < |words| ==> IsWord(words[i])
    ensures forall i :: 0 <= i < |Join(words)| ==> !IsSpace(Join(words)[i])
  {
    if |words| > 1 {
      JoinHasNoSpace(words[1..]);
    }
  }

  /** An accepted code has no spaces, and consists of six listed words with one dash between any two. */
  lemma AcceptedForm(input: string)
    requires Normalize(input).Code?
    ensures var text := Normalize(input).text;
      && (forall i :: 0 <= i < |text| ==> !IsSpace(text[i]))
      && Pieces(text) == Lowered(Words(input)) && |Pieces(text)| == 6
      && forall i :: 0 <= i < 6 ==> Pieces(text)[i] in Wordlist
  {
    NormalizeIff(input);
    ListedWords(Lowered(Words(input)));
    PiecesOfJoin(Lowered(Words(input)));
    JoinHasNoSpace(Lowered(Words(input)));
  }

  /** So has a generated one: the words drawn, in the order drawn. */
  lemma GeneratedForm(draws: seq<nat>)
    requires Drawn(draws)
    ensures var text := Join(Picked(draws));
      && (forall i :: 0 <= i < |text| ==> !IsSpace(text[i]))
      && |Pieces(text)| == 6 && forall i :: 0 <= i < 6 ==> Pieces(text)[i] == Wordlist[draws[i]]
  {
    ListedWords(Picked(draws));
    PiecesOfJoin(Picked(draws));
    JoinHasNoSpace(Picked(draws));
  }

  /** Normalising twice is normalising once. */
  lemma Idempotent(input: string)
    requires Normalize(input).Code?
    ensures Normalize(Normalize(input).text) == Normalize(input)
  {
    NormalizeIff(input);
    NormalFixed(Lowered(Words(input)));
  }

  /** Every code that can be generated is accepted and left as it is. */
  lemma GeneratedFixed(draws: seq<nat>)
    requires Drawn(draws)
    ensures Normalize(Join(Picked(draws))) == Code(Join(Picked(draws)))
  {
    NormalFixed(Picked(draws));
  }

  /** Two accepted inputs normalise equally exactly when they have the same six words up to case. */
  lemma EqualIff(a: string, b: string)
    requires Normalize(a).Code? && Normalize(b).Code?
    ensures Normalize(a) == Normalize(b) <==> Lowered(Words(a)) == Lowered(Words(b))
  {
    NormalizeIff(a);
    NormalizeIff(b);
    ListedWords(Lowered(Words(a)));
    ListedWords(Lowered(Words(b)));
    WordsOfJoin(Lowered(Words(a)));
    WordsOfJoin(Lowered(Words(b)));
  }
}
