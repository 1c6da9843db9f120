/** Lemma lookup and frequency analysis (text_to_anki/tta_grammar.py): a Lexicon maps a
    word form to its lemmas minus a "known" list; a TextAnalyzer tokenizes a text, looks
    up each digit-free token and counts tokens and lemmas. */
module TtaGrammar {
  import opened Common

  // ---------------------------------------------------------------------------------
  // The known list

  /** The known-list entry of one line of the known file, line.split(',')[0].strip(): the
      part before the first comma with surrounding white space removed. */
  function KnownEntry(line: string, lib: TextLib): (entry: string)
    ensures IsStripOf(entry, PrefixBefore(line, ','), lib.isSpace)
  {
    SplitFirst(line, ',');
    Strip(Split(line, ',')[0], lib.isSpace)
  }

  /** [line.split(',')[0].strip() for line in known_file] */
  function KnownList(lines: seq<string>, lib: TextLib): (known: seq<string>)
    ensures |known| == |lines|
    ensures forall i | 0 <= i < |lines| ::
              IsStripOf(known[i], PrefixBefore(lines[i], ','), lib.isSpace)
  {
    seq(|lines|, i requires 0 <= i < |lines| => KnownEntry(lines[i], lib))
  }

  // ---------------------------------------------------------------------------------
  // Lexicon

  /** A reverse map (word form to lemmas, as read from JSON) and the known lemmas.
      Neither changes after construction. */
  datatype Lexicon = Lexicon(data: map<string, seq<string>>, allKnown: seq<string>)
  {
    /** The lemmas of a word form that are not known; a form without an entry has none. */
    function Find(word: string): (r: set<string>)
      ensures forall l :: l in r <==> word in data && l in data[word] && l !in allKnown
    {
      if word in data then set l | l in data[word] && l !in allKnown else {}
    }
  }

  /** Lexicon.__init__ with the files already read: the reverse map, and the lines of the
      known file, which are read only when filtering is on. */
  function Load(data: map<string, seq<string>>, filterKnown: bool, knownLines: seq<string>,
                lib: TextLib): (lex: Lexicon)
    ensures lex.data == data
    ensures filterKnown ==> lex.allKnown == KnownList(knownLines, lib)
    ensures !filterKnown ==> lex.allKnown == []
  {
    Lexicon(data, if filterKnown then KnownList(knownLines, lib) else [])
  }

  /** A word form without an entry has no lemmas: no marker and no error. */
  lemma FindMissing(lex: Lexicon, word: string)
    requires word !in lex.data
    ensures lex.Find(word) == {}
  {
  }

  /** find is empty exactly when the form has no entry or all its lemmas are known, so an
      unknown form and a fully known one look the same. */
  lemma FindEmptyIff(lex: Lexicon, word: string)
    ensures lex.Find(word) == {} <==>
            word !in lex.data || forall l | l in lex.data[word] :: l in lex.allKnown
  {
    if word in lex.data && lex.Find(word) == {} {
      forall l | l in lex.data[word] ensures l in lex.allKnown {
        assert l !in lex.Find(word);
      }
    }
  }

  /** With filtering off nothing is known: find gives every lemma mapped from the form. */
  lemma FindUnfiltered(data: map<string, seq<string>>, knownLines: seq<string>,
                       lib: TextLib, word: string)
    ensures Load(data, false, knownLines, lib).Find(word) ==
            if word in data then set l | l in data[word] else {}
  {
  }

  /** The set of the elements of a sequence is no larger than the sequence. */
  lemma {:induction false} SetOfSeqSize(xs: seq<string>, keep: set<string>)
    requires keep <= set x | x in xs
    ensures |keep| <= |xs|
    decreases |xs|
  {
    if xs != [] {
      var last := xs[|xs| - 1];
      var init := xs[..|xs| - 1];
      assert forall x | x in xs :: x in init || x == last;
      SetOfSeqSize(init, keep - {last});
    }
  }

  /** Duplicate lemmas in an entry collapse: find never gives more lemmas than the entry
      lists. */
  lemma FindAtMostEntry(lex: Lexicon, word: string)
    requires word in lex.data
    ensures |lex.Find(word)| <= |lex.data[word]|
  {
    SetOfSeqSize(lex.data[word], lex.Find(word));
  }

  // ---------------------------------------------------------------------------------
  // Tokens

  /** Length of the longest prefix of s made of word characters. */
  function RunLength(s: string, isWord: char -> bool): (n: nat)
    ensures n <= |s|
    ensures forall k | 0 <= k < n :: isWord(s[k])
    ensures n == |s| || !isWord(s[n])
  {
    if s == [] || !isWord(s[0]) then 0 else 1 + RunLength(s[1..], isWord)
  }

  /** RegexpTokenizer(r'\w+').tokenize(s): the maximal runs of word characters, in order. */
  function Words(s: string, isWord: char -> bool): (ws: seq<string>)
    ensures forall i | 0 <= i < |ws| ::
              ws[i] != [] && forall k | 0 <= k < |ws[i]| :: isWord(ws[i][k])
    decreases |s|
  {
    if s == [] then []
    else if !isWord(s[0]) then Words(s[1..], isWord)
    else
      var n := RunLength(s, isWord);
      [s[..n]] + Words(s[n..], isWord)
  }

  /** A non-empty string of word characters is one token. */
  lemma WordsOfRun(s: string, isWord: char -> bool)
    requires s != [] && forall k | 0 <= k < |s| :: isWord(s[k])
    ensures Words(s, isWord) == [s]
  {
    assert isWord(s[0]);
    assert RunLength(s, isWord) == |s|;
    assert s[..|s|] == s && s[|s|..] == [];
  }

  /** The word characters of s, in order. */
  function WordChars(s: string, isWord: char -> bool): string {
    if s == [] then [] else (if isWord(s[0]) then [s[0]] else []) + WordChars(s[1..], isWord)
  }

  /** The tokens written one after the other. */
  function Concat(ws: seq<string>): string {
    if ws == [] then [] else ws[0] + Concat(ws[1..])
  }

  lemma {:induction false} WordCharsAppend(x: string, y: string, isWord: char -> bool)
    ensures WordChars(x + y, isWord) == WordChars(x, isWord) + WordChars(y, isWord)
    decreases |x|
  {
    if x == [] {
      assert x + y == y;
    } else {
      var head := if isWord(x[0]) then [x[0]] else [];
      assert (x + y)[0] == x[0] && (x + y)[1..] == x[1..] + y;
      assert WordChars(x + y, isWord) == head + WordChars(x[1..] + y, isWord);
      WordCharsAppend(x[1..], y, isWord);
      assert WordChars(x, isWord) == head + WordChars(x[1..], isWord);
    }
  }

  lemma {:induction false} WordCharsOfRun(x: string, isWord: char -> bool)
    requires forall k | 0 <= k < |x| :: isWord(x[k])
    ensures WordChars(x, isWord) == x
    decreases |x|
  {
    if x != [] {
      WordCharsOfRun(x[1..], isWord);
    }
  }

  /** Every token is a non-empty run of word characters, and together the tokens hold
      exactly the word characters of s, in order: only the rest is discarded. */
  lemma {:induction false} WordsAreRuns(s: string, isWord: char -> bool)
    ensures forall i | 0 <= i < |Words(s, isWord)| ::
              Words(s, isWord)[i] != [] &&
              forall k | 0 <= k < |Words(s, isWord)[i]| :: isWord(Words(s, isWord)[i][k])
    ensures Concat(Words(s, isWord)) == WordChars(s, isWord)
    decreases |s|
  {
    if s != [] {
      if !isWord(s[0]) {
        WordsAreRuns(s[1..], isWord);
      } else {
        var n := RunLength(s, isWord);
        var rest := s[n..];
        WordsAreRuns(rest, isWord);
        var ws := Words(s, isWord);
        assert ws == [s[..n]] + Words(rest, isWord);
        assert ws[1..] == Words(rest, isWord);
        assert s == s[..n] + rest;
        WordCharsAppend(s[..n], rest, isWord);
        WordCharsOfRun(s[..n], isWord);
      }
    }
  }

  /** A run of word characters stops at the first non-word character after it. */
  lemma RunLengthBefore(a: string, c: char, b: string, isWord: char -> bool)
    requires !isWord(c)
    ensures RunLength(a + [c] + b, isWord) == RunLength(a, isWord)
  {
    var s := a + [c] + b;
    var m := RunLength(a, isWord);
    var n := RunLength(s, isWord);
    assert forall k | 0 <= k < |a| :: s[k] == a[k];
    assert s[|a|] == c;
  }

  /** A non-word character separates tokens: what comes before it and what comes after it
      are tokenized independently. With WordsOfRun this fixes Words completely. */
  lemma {:induction false} WordsSeparated(a: string, c: char, b: string, isWord: char -> bool)
    requires !isWord(c)
    ensures Words(a + [c] + b, isWord) == Words(a, isWord) + Words(b, isWord)
    decreases |a|
  {
    var s := a + [c] + b;
    if a == [] {
      assert s[0] == c && s[1..] == b;
    } else if !isWord(a[0]) {
      assert s[0] == a[0] && s[1..] == a[1..] + [c] + b;
      WordsSeparated(a[1..], c, b, isWord);
    } else {
      assert s[0] == a[0];
      var m := RunLength(a, isWord);
      RunLengthBefore(a, c, b, isWord);
      assert s[..m] == a[..m];
      assert s[m..] == a[m..] + [c] + b;
      WordsSeparated(a[m..], c, b, isWord);
      assert Words(s, isWord) == [a[..m]] + Words(a[m..] + [c] + b, isWord);
      assert Words(a, isWord) == [a[..m]] + Words(a[m..], isWord);
    }
  }

  /** The tokens of one sentence with the first lower-cased. */
  function Decapitalize(tokens: seq<string>, lib: TextLib): (r: seq<string>)
    ensures |r| == |tokens|
    ensures tokens != [] ==> r[0] == lib.lower(tokens[0])
    ensures forall i | 1 <= i < |tokens| :: r[i] == tokens[i]
  {
    if tokens == [] then [] else [lib.lower(tokens[0])] + tokens[1..]
  }

  /** The token list of a text split into these sentences. */
  function Tokenized(sentences: seq<string>, lib: TextLib): seq<string> {
    if sentences == [] then []
    else
      var n := |sentences| - 1;
      Tokenized(sentences[..n], lib) + Decapitalize(Words(sentences[n], lib.isWord), lib)
  }

  /** TextAnalyzer.tokenize */
  method Tokenize(text: string, lib: TextLib) returns (tokens: seq<string>)
    ensures tokens == Tokenized(lib.sentTokenize(text), lib)
  {
    var sentences := lib.sentTokenize(text);
    tokens := [];
    for k := 0 to |sentences|
      invariant tokens == Tokenized(sentences[..k], lib)
    {
      var ts := Words(sentences[k], lib.isWord);
      if ts != [] {
        ts := ts[0 := lib.lower(ts[0])];
      }
      assert ts == Decapitalize(Words(sentences[k], lib.isWord), lib);
      TokenizedNext(sentences, k, lib);
      tokens := tokens + ts;
    }
    assert sentences[..|sentences|] == sentences;
  }

  /** One more sentence appends its tokens. */
  lemma TokenizedNext(sentences: seq<string>, k: nat, lib: TextLib)
    requires k < |sentences|
    ensures Tokenized(sentences[..k + 1], lib) ==
            Tokenized(sentences[..k], lib) + Decapitalize(Words(sentences[k], lib.isWord), lib)
  {
    assert sentences[..k + 1][..k] == sentences[..k];
  }

  /** Sentences are tokenized independently and their tokens concatenated in order. */
  lemma {:induction false} TokenizedAppend(a: seq<string>, b: seq<string>, lib: TextLib)
    ensures Tokenized(a + b, lib) == Tokenized(a, lib) + Tokenized(b, lib)
    decreases |b|
  {
    if b != [] {
      var n := |b| - 1;
      assert (a + b)[..|a + b| - 1] == a + b[..n];
      TokenizedAppend(a, b[..n], lib);
    } else {
      assert a + b == a;
    }
  }

  /** One sentence among others contributes its own tokens, first one lower-cased, at its
      place in the order. */
  lemma TokenizedSentence(a: seq<string>, s: string, b: seq<string>, lib: TextLib)
    ensures Tokenized(a + [s] + b, lib) ==
            Tokenized(a, lib) + Decapitalize(Words(s, lib.isWord), lib) + Tokenized(b, lib)
  {
    TokenizedAppend(a + [s], b, lib);
    TokenizedAppend(a, [s], lib);
    TokenizedOne(s, lib);
  }

  /** A sentence without word characters contributes no token. */
  lemma TokenizedWordless(a: seq<string>, s: string, b: seq<string>, lib: TextLib)
    requires Words(s, lib.isWord) == []
    ensures Tokenized(a + [s] + b, lib) == Tokenized(a + b, lib)
  {
    var none := Decapitalize(Words(s, lib.isWord), lib);
    assert |none| == 0;
    TokenizedSentence(a, s, b, lib);
    TokenizedAppend(a, b, lib);
    assert Tokenized(a, lib) + none == Tokenized(a, lib);
  }

  /** A text of one sentence gives that sentence's tokens. */
  lemma TokenizedOne(s: string, lib: TextLib)
    ensures Tokenized([s], lib) == Decapitalize(Words(s, lib.isWord), lib)
  {
    assert [s][..0] == [];
  }

  // ---------------------------------------------------------------------------------
  // Lemmas and counts

  /** any(char.isdigit() for char in token): scans the token until it meets a digit. */
  function HasDigit(token: string, lib: TextLib): (b: bool)
    ensures b <==> exists k | 0 <= k < |token| :: lib.isDigit(token[k])
  {
    token != [] && (lib.isDigit(token[0]) || HasDigit(token[1..], lib))
  }

  /** The lemmas one token contributes: none for a token with a digit, otherwise the
      lemmas of its lower-cased form. */
  function Found(token: string, lex: Lexicon, lib: TextLib): multiset<string> {
    if HasDigit(token, lib) then multiset{} else multiset(lex.Find(lib.lower(token)))
  }

  /** The lemmas of a token list, as a bag: order is not kept since each token's lemmas
      come from a set. */
  function LemmaBag(tokens: seq<string>, lex: Lexicon, lib: TextLib): multiset<string> {
    if tokens == [] then multiset{}
    else
      var n := |tokens| - 1;
      LemmaBag(tokens[..n], lex, lib) + Found(tokens[n], lex, lib)
  }

  /** TextAnalyzer.get_lemmas: every lemma found for every digit-free token; the lemmas of
      one token come out in the set's iteration order, which is left open. */
  method GetLemmas(tokens: seq<string>, lex: Lexicon, lib: TextLib) returns (lemmas: seq<string>)
    ensures multiset(lemmas) == LemmaBag(tokens, lex, lib)
  {
    lemmas := [];
    for i := 0 to |tokens|
      invariant multiset(lemmas) == LemmaBag(tokens[..i], lex, lib)
    {
      assert tokens[..i + 1][..i] == tokens[..i];
      var token := tokens[i];
      if HasDigit(token, lib) {
        continue;
      }
      var found := SetToSeq(lex.Find(lib.lower(token)));
      lemmas := lemmas + found;
    }
    assert tokens[..|tokens|] == tokens;
  }

  /** Counter(xs): each distinct element with its number of occurrences. */
  method Count(xs: seq<string>) returns (freq: map<string, nat>)
    ensures forall x :: x in freq <==> x in xs
    ensures forall x | x in freq :: freq[x] == multiset(xs)[x]
  {
    freq := map[];
    for i := 0 to |xs|
      invariant forall x :: x in freq <==> x in xs[..i]
      invariant forall x | x in freq :: freq[x] == multiset(xs[..i])[x]
    {
      var x := xs[i];
      assert xs[..i + 1] == xs[..i] + [x];
      freq := freq[x := if x in freq then freq[x] + 1 else 1];
    }
    assert xs[..|xs|] == xs;
  }

  /** The lemma bag of consecutive pieces of text is the union of their bags. */
  lemma {:induction false} LemmaBagAppend(a: seq<string>, b: seq<string>, lex: Lexicon, lib: TextLib)
    ensures LemmaBag(a + b, lex, lib) == LemmaBag(a, lex, lib) + LemmaBag(b, lex, lib)
    decreases |b|
  {
    if b != [] {
      var n := |b| - 1;
      assert (a + b)[..|a + b| - 1] == a + b[..n];
      LemmaBagAppend(a, b[..n], lex, lib);
    } else {
      assert a + b == a;
    }
  }

  /** A token with a digit contributes no lemma wherever it stands. */
  lemma DigitTokenIgnored(a: seq<string>, t: string, b: seq<string>, lex: Lexicon, lib: TextLib)
    requires HasDigit(t, lib)
    ensures LemmaBag(a + [t] + b, lex, lib) == LemmaBag(a + b, lex, lib)
  {
    LemmaBagAppend(a + [t], b, lex, lib);
    LemmaBagAppend(a, [t], lex, lib);
    LemmaBagAppend(a, b, lex, lib);
    assert [t][..0] == [];
  }

  /** The number of digit-free tokens whose lower-cased form has lemma l. */
  function Hits(tokens: seq<string>, lex: Lexicon, lib: TextLib, l: string): nat {
    if tokens == [] then 0
    else
      (if !HasDigit(tokens[0], lib) && l in lex.Find(lib.lower(tokens[0])) then 1 else 0)
      + Hits(tokens[1..], lex, lib, l)
  }

  /** lemma_frequencies[l] is the number of digit-free tokens t with l in find(lower(t)). */
  lemma {:induction false} LemmaCountIsHits(tokens: seq<string>, lex: Lexicon, lib: TextLib, l: string)
    ensures LemmaBag(tokens, lex, lib)[l] == Hits(tokens, lex, lib, l)
    decreases |tokens|
  {
    if tokens != [] {
      assert tokens == [tokens[0]] + tokens[1..];
      LemmaBagAppend([tokens[0]], tokens[1..], lex, lib);
      assert [tokens[0]][..0] == [];
      LemmaCountIsHits(tokens[1..], lex, lib, l);
    }
  }

  /** The sum of |find(lower(t))| over the digit-free tokens. */
  function FoundTotal(tokens: seq<string>, lex: Lexicon, lib: TextLib): nat {
    if tokens == [] then 0
    else
      (if HasDigit(tokens[0], lib) then 0 else |lex.Find(lib.lower(tokens[0]))|)
      + FoundTotal(tokens[1..], lex, lib)
  }

  /** The total of the lemma counts is the sum of the sizes of the lemma sets found. */
  lemma {:induction false} LemmaTotal(tokens: seq<string>, lex: Lexicon, lib: TextLib)
    ensures |LemmaBag(tokens, lex, lib)| == FoundTotal(tokens, lex, lib)
    decreases |tokens|
  {
    if tokens != [] {
      assert tokens == [tokens[0]] + tokens[1..];
      LemmaBagAppend([tokens[0]], tokens[1..], lex, lib);
      assert [tokens[0]][..0] == [];
      LemmaTotal(tokens[1..], lex, lib);
    }
  }

  // ---------------------------------------------------------------------------------
  // The analyzer

  /** TextAnalyzer: the text, its tokens, its lemmas and the two frequency tables, all
      computed once at construction. */
  class TextAnalyzer {
    const text: string
    const tokens: seq<string>
    const tokenFrequencies: map<string, nat>
    const lemmas: seq<string>
    const lemmaFrequencies: map<string, nat>

    constructor (inputText: string, lex: Lexicon, lib: TextLib)
      ensures text == inputText
      ensures tokens == Tokenized(lib.sentTokenize(inputText), lib)
      ensures forall t :: t in tokenFrequencies <==> t in tokens
      ensures forall t | t in tokenFrequencies :: tokenFrequencies[t] == multiset(tokens)[t]
      ensures multiset(lemmas) == LemmaBag(tokens, lex, lib)
      ensures forall l :: l in lemmaFrequencies <==> Hits(tokens, lex, lib, l) > 0
      ensures forall l | l in lemmaFrequencies ::
                lemmaFrequencies[l] == Hits(tokens, lex, lib, l)
    {
      text := inputText;
      var ts := Tokenize(inputText, lib);
      tokens := ts;
      var tf := Count(ts);
      tokenFrequencies := tf;
      var ls := GetLemmas(ts, lex, lib);
      lemmas := ls;
      var lf := Count(ls);
      lemmaFrequencies := lf;
      forall l ensures multiset(ls)[l] == Hits(ts, lex, lib, l) {
        LemmaCountIsHits(ts, lex, lib, l);
      }
    }
  }
}
