/** What the core takes from Python and its libraries, stated once and shared by every
    module: character classes and case mapping as abstract functions, the errors Python
    raises, and the string operations str.strip, str.split, str.join and str(int). */
module Common {

  /** The library behaviour the core relies on, passed in as values rather than fixed
      here: Unicode case mapping and character classes, and the sentence splitter. */
  datatype TextLib = TextLib(
    lower: string -> string,              // str.lower
    isDigit: char -> bool,                // str.isdigit of a one-character string
    isUpper: char -> bool,                // str.isupper of a one-character string
    isLower: char -> bool,                // str.islower of a one-character string
    isWord: char -> bool,                 // the regular-expression class \w
    isSpace: char -> bool,                // the characters str.strip() removes
    sentTokenize: string -> seq<string>   // nltk.sent_tokenize
  )

  /** Unicode never calls one character both upper case and lower case. */
  ghost predicate CaseConsistent(lib: TextLib) {
    forall c :: !(lib.isUpper(c) && lib.isLower(c))
  }

  /** The exceptions the modelled code can raise. */
  datatype Error =
    | ValueError(input: string)   // datetime.strptime rejecting a time string
    | IndexError                  // k[0] on an empty dictionary key

  datatype Result<T> = Ok(value: T) | Err(error: Error)

  /** Position of the first occurrence of c in s (str.index). */
  function IndexOf(s: string, c: char): (i: nat)
    requires c in s
    ensures i < |s| && s[i] == c && c !in s[..i]
  {
    if s[0] == c then 0 else 1 + IndexOf(s[1..], c)
  }

  /** The longest prefix of s without c: up to the first c, or all of s. */
  function PrefixBefore(s: string, c: char): (r: string)
    ensures r <= s && c !in r
    ensures r == s || s[|r|] == c
  {
    if c in s then s[..IndexOf(s, c)] else s
  }

  /** str.lstrip(): s without its leading white space. */
  function TrimStart(s: string, isSpace: char -> bool): (r: string)
    ensures |r| <= |s| && r == s[|s| - |r|..]
    ensures forall k | 0 <= k < |s| - |r| :: isSpace(s[k])
    ensures r == [] || !isSpace(r[0])
    decreases |s|
  {
    if s != [] && isSpace(s[0]) then TrimStart(s[1..], isSpace) else s
  }

  /** str.rstrip(): s without its trailing white space. */
  function TrimEnd(s: string, isSpace: char -> bool): (r: string)
    ensures |r| <= |s| && r == s[..|r|]
    ensures forall k | |r| <= k < |s| :: isSpace(s[k])
    ensures r == [] || !isSpace(r[|r| - 1])
    decreases |s|
  {
    if s != [] && isSpace(s[|s| - 1]) then TrimEnd(s[..|s| - 1], isSpace) else s
  }

  /** r is s[i..i+|r|] with nothing but white space before and after it. */
  ghost predicate StripAt(r: string, s: string, i: nat, isSpace: char -> bool) {
    && i + |r| <= |s|
    && s[i..i + |r|] == r
    && (forall k | 0 <= k < i :: isSpace(s[k]))
    && (forall k | i + |r| <= k < |s| :: isSpace(s[k]))
  }

  /** r is s with all leading and all trailing white space removed: a slice of s with
      only white space around it, that neither starts nor ends with white space. */
  ghost predicate IsStripOf(r: string, s: string, isSpace: char -> bool) {
    && (r == [] || (!isSpace(r[0]) && !isSpace(r[|r| - 1])))
    && exists i: nat :: StripAt(r, s, i, isSpace)
  }

  /** str.strip() */
  function Strip(s: string, isSpace: char -> bool): (r: string)
    ensures IsStripOf(r, s, isSpace)
  {
    StripWitness(s, isSpace);
    TrimEnd(TrimStart(s, isSpace), isSpace)
  }

  /** Trimming the start and then the end leaves a slice of s with only white space
      around it, at the offset where the leading white space ends. */
  lemma StripWitness(s: string, isSpace: char -> bool)
    ensures IsStripOf(TrimEnd(TrimStart(s, isSpace), isSpace), s, isSpace)
  {
    var t := TrimStart(s, isSpace);
    var r := TrimEnd(t, isSpace);
    var a := |s| - |t|;
    assert t == s[a..];
    assert r == t[..|r|];
    assert s[a..a + |r|] == r;
    forall k | a + |r| <= k < |s| ensures isSpace(s[k]) {
      assert s[k] == t[k - a];
    }
    assert StripAt(r, s, a, isSpace);
    if r != [] {
      assert r[0] == t[0];
    }
  }

  /** In a string of white space only, every slice is white space. */
  lemma StripOfSpace(r: string, s: string, i: nat, isSpace: char -> bool)
    requires StripAt(r, s, i, isSpace)
    requires forall k | 0 <= k < |s| :: isSpace(s[k])
    ensures forall m | 0 <= m < |r| :: isSpace(r[m])
  {
    forall m | 0 <= m < |r| ensures isSpace(r[m]) {
      assert r[m] == s[i + m];
    }
  }

  /** A strip of s covers every non-white-space character of s, and starts and ends on
      one. */
  lemma StripCovers(r: string, s: string, i: nat, k: nat, isSpace: char -> bool)
    requires StripAt(r, s, i, isSpace) && (r == [] || (!isSpace(r[0]) && !isSpace(r[|r| - 1])))
    requires k < |s| && !isSpace(s[k])
    ensures i <= k < i + |r|
    ensures !isSpace(s[i]) && !isSpace(s[i + |r| - 1])
  {
    assert s[i..i + |r|] == r;
    assert i <= k < i + |r|;
    assert s[i] == r[0] && s[i + |r| - 1] == r[|r| - 1];
  }

  /** Two strips of a string with some non-white-space character are the same slice. */
  lemma StripsAgree(r: string, q: string, s: string, i: nat, j: nat, k: nat, isSpace: char -> bool)
    requires StripAt(r, s, i, isSpace) && (r == [] || (!isSpace(r[0]) && !isSpace(r[|r| - 1])))
    requires StripAt(q, s, j, isSpace) && (q == [] || (!isSpace(q[0]) && !isSpace(q[|q| - 1])))
    requires k < |s| && !isSpace(s[k])
    ensures r == q
  {
    StripCovers(r, s, i, k, isSpace);
    StripCovers(q, s, j, k, isSpace);
    StripCovers(r, s, i, j, isSpace);
    StripCovers(q, s, j, i, isSpace);
    assert i == j;
    StripCovers(r, s, i, j + |q| - 1, isSpace);
    StripCovers(q, s, j, i + |r| - 1, isSpace);
    assert |r| == |q|;
    assert r == s[i..i + |r|] == q;
  }

  /** The strip of a string is unique: any r with the property is Strip(s). */
  lemma StripUnique(r: string, s: string, isSpace: char -> bool)
    requires IsStripOf(r, s, isSpace)
    ensures r == Strip(s, isSpace)
  {
    var q := Strip(s, isSpace);
    var i: nat :| StripAt(r, s, i, isSpace);
    var j: nat :| StripAt(q, s, j, isSpace);
    if forall k | 0 <= k < |s| :: isSpace(s[k]) {
      StripOfSpace(r, s, i, isSpace);
      StripOfSpace(q, s, j, isSpace);
    } else {
      var k :| 0 <= k < |s| && !isSpace(s[k]);
      StripsAgree(r, q, s, i, j, k, isSpace);
    }
  }

  /** sep.join(parts) */
  function Join(parts: seq<string>, sep: string): (r: string)
    ensures parts == [] ==> r == []
    ensures parts != [] ==> |r| == TotalLength(parts) + (|parts| - 1) * |sep|
    ensures parts != [] ==> parts[0] <= r
  {
    if |parts| == 0 then []
    else if |parts| == 1 then parts[0]
    else
      var rest := Join(parts[1..], sep);
      assert (|parts| - 1) * |sep| == (|parts[1..]| - 1) * |sep| + |sep|;
      parts[0] + sep + rest
  }

  /** The total length of the parts. */
  function TotalLength(parts: seq<string>): nat {
    if parts == [] then 0 else |parts[0]| + TotalLength(parts[1..])
  }

  /** str.split(sep) with an explicit one-character separator: never empty, no part holds
      the separator, and joining the parts with it gives back s. */
  function Split(s: string, sep: char): (parts: seq<string>)
    ensures |parts| >= 1
    ensures forall p | p in parts :: sep !in p
    ensures Join(parts, [sep]) == s
    decreases |s|
  {
    if sep !in s then [s]
    else
      var i := IndexOf(s, sep);
      var rest := Split(s[i + 1..], sep);
      assert s == s[..i] + [sep] + s[i + 1..];
      assert ([s[..i]] + rest)[1..] == rest;
      [s[..i]] + rest
  }

  /** The first part of s.split(c) is the prefix of s before c. */
  lemma SplitFirst(s: string, c: char)
    ensures Split(s, c)[0] == PrefixBefore(s, c)
  {
  }

  /** Splitting a join of separator-free parts gives the parts back. */
  lemma {:induction false} SplitOfJoin(parts: seq<string>, sep: char)
    requires |parts| >= 1
    requires forall p | p in parts :: sep !in p
    ensures Split(Join(parts, [sep]), sep) == parts
    decreases |parts|
  {
    if |parts| > 1 {
      var p := parts[0];
      var rest := parts[1..];
      var s := Join(parts, [sep]);
      assert s == p + [sep] + Join(rest, [sep]);
      assert s[|p|] == sep;
      assert s[..|p|] == p;
      var i := IndexOf(s, sep);
      assert sep !in s[..|p|];
      assert i == |p|;
      assert s[i + 1..] == Join(rest, [sep]);
      SplitOfJoin(rest, sep);
    }
  }

  function DigitChar(d: nat): (c: char)
    requires d < 10
    ensures '0' <= c <= '9'
  {
    ('0' as int + d) as char
  }

  function DigitValue(c: char): nat
    requires '0' <= c <= '9'
  {
    c as int - '0' as int
  }

  /** str(n) for a natural number n: its decimal digits, without leading zeros. */
  function DecimalString(n: nat): (r: string)
    ensures |r| >= 1 && forall k | 0 <= k < |r| :: '0' <= r[k] <= '9'
    ensures r[0] == '0' <==> n == 0
  {
    if n < 10 then [DigitChar(n)] else DecimalString(n / 10) + [DigitChar(n % 10)]
  }

  /** int(s) for a string of decimal digits. */
  function DecimalValue(s: string): nat
    requires forall k | 0 <= k < |s| :: '0' <= s[k] <= '9'
  {
    if s == [] then 0 else 10 * DecimalValue(s[..|s| - 1]) + DigitValue(s[|s| - 1])
  }

  /** int(str(n)) == n */
  lemma {:induction false} DecimalRoundTrip(n: nat)
    ensures DecimalValue(DecimalString(n)) == n
  {
    if n >= 10 {
      var r := DecimalString(n);
      assert r[..|r| - 1] == DecimalString(n / 10);
      DecimalRoundTrip(n / 10);
    }
  }

  /** list(s): the elements of a set, each once, in an order Python leaves unspecified. */
  method SetToSeq<T>(s: set<T>) returns (xs: seq<T>)
    ensures multiset(xs) == multiset(s)
    ensures forall i, j | 0 <= i < j < |xs| :: xs[i] != xs[j]
  {
    xs := [];
    var rest := s;
    while rest != {}
      invariant rest <= s
      invariant multiset(xs) + multiset(rest) == multiset(s)
      invariant forall i, j | 0 <= i < j < |xs| :: xs[i] != xs[j]
      invariant forall i | 0 <= i < |xs| :: xs[i] !in rest
      decreases rest
    {
      var x :| x in rest;
      assert multiset(rest) == multiset(rest - {x}) + multiset{x};
      xs := xs + [x];
      rest := rest - {x};
    }
  }
}
