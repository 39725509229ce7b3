/** Character and string primitives that the JavaScript front end and the Python back end
    lean on: white space as each language defines it, `trim`/`strip`, splitting on white
    space and on a separator character, JavaScript's `parseInt` (no radix argument),
    Python's `int()` on a string, ASCII lower-casing and decimal rendering of naturals. */
module Text {
  import opened Wrappers

  /** JavaScript's WhiteSpace and LineTerminator code points: what `\s` and `trim()` match. */
  predicate IsJsSpace(c: char) {
    c == '\t' || c == '\n' || c == '\U{B}' || c == '\U{C}' || c == '\r' || c == ' '
    || c == '\U{A0}' || c == '\U{1680}' || ('\U{2000}' <= c <= '\U{200A}')
    || c == '\U{2028}' || c == '\U{2029}' || c == '\U{202F}' || c == '\U{205F}'
    || c == '\U{3000}' || c == '\U{FEFF}'
  }

  /** Python's `str.isspace()` code points: what `strip()` and `split()` remove. */
  predicate IsPySpace(c: char) {
    ('\t' <= c <= '\r') || ('\U{1C}' <= c <= '\U{1F}') || c == ' ' || c == '\U{85}'
    || c == '\U{A0}' || c == '\U{1680}' || ('\U{2000}' <= c <= '\U{200A}')
    || c == '\U{2028}' || c == '\U{2029}' || c == '\U{202F}' || c == '\U{205F}'
    || c == '\U{3000}'
  }

  /** The two white-space tests, reached through one level of recursion so that the
      verifier only expands the long disjunctions above when a lemma below asks for them. */
  predicate SpaceTest(c: char, python: bool, depth: nat)
  {
    if depth == 0 then (if python then IsPySpace(c) else IsJsSpace(c))
    else SpaceTest(c, python, depth - 1)
  }

  lemma {:induction false} SpaceTestIs(c: char, python: bool, depth: nat)
    ensures SpaceTest(c, python, depth) == if python then IsPySpace(c) else IsJsSpace(c)
  {
    if depth > 0 {
      SpaceTestIs(c, python, depth - 1);
    }
  }

  const JsSpaces: set<char> := set c: char | SpaceTest(c, false, 2)
  const PySpaces: set<char> := set c: char | SpaceTest(c, true, 2)

  /** The blank is white space in both languages. */
  lemma BlankIsSpace()
    ensures ' ' in JsSpaces && ' ' in PySpaces
  {
    SpaceTestIs(' ', false, 2);
    SpaceTestIs(' ', true, 2);
  }

  /** No visible ASCII character (digits, letters, signs, `#`, `/`, `_`, `.`) is white space
      in either language. */
  lemma VisibleNotSpace(c: char)
    requires '!' <= c <= '~'
    ensures c !in JsSpaces && c !in PySpaces
  {
    SpaceTestIs(c, false, 2);
    SpaceTestIs(c, true, 2);
  }

  /** A string of visible ASCII characters has no white space in either language. */
  lemma VisibleNoSpace(s: string)
    requires forall i :: 0 <= i < |s| ==> '!' <= s[i] <= '~'
    ensures NoSpace(JsSpaces, s) && NoSpace(PySpaces, s)
  {
    forall i | 0 <= i < |s|
      ensures s[i] !in JsSpaces && s[i] !in PySpaces
    {
      VisibleNotSpace(s[i]);
    }
  }

  /** `s` holds no character of the white-space set `ws`. */
  predicate NoSpace(ws: set<char>, s: string) {
    forall i :: 0 <= i < |s| ==> s[i] !in ws
  }

  /** Drops leading white space. */
  function TrimStart(ws: set<char>, s: string): (r: string)
    ensures |r| <= |s|
    ensures r == [] || r[0] !in ws
  {
    if s != [] && s[0] in ws then TrimStart(ws, s[1..]) else s
  }

  /** What `TrimStart` keeps is a suffix. */
  lemma {:induction false} TrimStartSuffix(ws: set<char>, s: string)
    ensures TrimStart(ws, s) == s[|s| - |TrimStart(ws, s)|..]
  {
    if s != [] && s[0] in ws {
      TrimStartSuffix(ws, s[1..]);
      var r := TrimStart(ws, s);
      assert s[1..][|s| - 1 - |r|..] == s[|s| - |r|..];
    }
  }

  /** What `TrimStart` drops is white space. */
  lemma {:induction false} TrimStartDrops(ws: set<char>, s: string)
    ensures forall i :: 0 <= i < |s| - |TrimStart(ws, s)| ==> s[i] in ws
  {
    if s != [] && s[0] in ws {
      TrimStartDrops(ws, s[1..]);
      assert forall i :: 1 <= i < |s| - |TrimStart(ws, s)| ==> s[i] == s[1..][i - 1];
    }
  }

  /** Drops trailing white space. */
  function TrimEnd(ws: set<char>, s: string): (r: string)
    ensures |r| <= |s|
    ensures r == [] || r[|r| - 1] !in ws
  {
    if s != [] && s[|s| - 1] in ws then TrimEnd(ws, s[..|s| - 1]) else s
  }

  /** What `TrimEnd` keeps is a prefix. */
  lemma {:induction false} TrimEndPrefix(ws: set<char>, s: string)
    ensures TrimEnd(ws, s) == s[..|TrimEnd(ws, s)|]
  {
    if s != [] && s[|s| - 1] in ws {
      TrimEndPrefix(ws, s[..|s| - 1]);
      var r := TrimEnd(ws, s);
      assert s[..|s| - 1][..|r|] == s[..|r|];
    }
  }

  /** What `TrimEnd` drops is white space. */
  lemma {:induction false} TrimEndDrops(ws: set<char>, s: string)
    ensures forall i :: |TrimEnd(ws, s)| <= i < |s| ==> s[i] in ws
  {
    if s != [] && s[|s| - 1] in ws {
      TrimEndDrops(ws, s[..|s| - 1]);
      assert forall i :: |TrimEnd(ws, s)| <= i < |s| - 1 ==> s[i] == s[..|s| - 1][i];
    }
  }

  /** `trim()` in JavaScript, `strip()` in Python. */
  function Trim(ws: set<char>, s: string): (r: string)
  {
    TrimEnd(ws, TrimStart(ws, s))
  }

  /** The trimmed string is what is left of `s` after removing a run of white space at each
      end, and it neither starts nor ends with white space. */
  lemma TrimSpec(ws: set<char>, s: string)
    ensures var r := Trim(ws, s);
      exists a, b :: 0 <= a <= b <= |s| && r == s[a..b]
        && (forall i :: 0 <= i < a ==> s[i] in ws)
        && (forall i :: b <= i < |s| ==> s[i] in ws)
    ensures Trim(ws, s) == [] || (Trim(ws, s)[0] !in ws && Trim(ws, s)[|Trim(ws, s)| - 1] !in ws)
  {
    TrimBounds(ws, s);
    TrimEdges(ws, s);
  }

  /** The window, with its ends named. */
  lemma TrimBounds(ws: set<char>, s: string)
    ensures var a := |s| - |TrimStart(ws, s)|; var b := a + |Trim(ws, s)|;
      0 <= a <= b <= |s| && Trim(ws, s) == s[a..b]
        && (forall i :: 0 <= i < a ==> s[i] in ws)
        && (forall i :: b <= i < |s| ==> s[i] in ws)
  {
    TrimStartDrops(ws, s);
    TrimTailDrops(ws, s);
    TrimWindow(ws, s);
  }

  /** The trimmed string neither starts nor ends with white space. */
  lemma TrimEdges(ws: set<char>, s: string)
    ensures Trim(ws, s) == [] || (Trim(ws, s)[0] !in ws && Trim(ws, s)[|Trim(ws, s)| - 1] !in ws)
  {
    var t := TrimStart(ws, s);
    var r := TrimEnd(ws, t);
    TrimEndPrefix(ws, t);
    assert r != [] ==> r[0] == t[0];
  }

  /** The trimmed string is a window of the original. */
  lemma TrimWindow(ws: set<char>, s: string)
    ensures var t := TrimStart(ws, s);
      Trim(ws, s) == s[|s| - |t|..|s| - |t| + |Trim(ws, s)|]
  {
    var t := TrimStart(ws, s);
    TrimStartSuffix(ws, s);
    TrimEndPrefix(ws, t);
  }

  /** Everything after the window is white space. */
  lemma TrimTailDrops(ws: set<char>, s: string)
    ensures var t := TrimStart(ws, s);
      forall i :: |s| - |t| + |Trim(ws, s)| <= i < |s| ==> s[i] in ws
  {
    var t := TrimStart(ws, s);
    TrimEndDrops(ws, t);
    TrimStartSuffix(ws, s);
    SuffixInSet(ws, s, |s| - |t|, |TrimEnd(ws, t)|);
  }

  lemma SuffixInSet(ws: set<char>, s: string, a: nat, k: nat)
    requires a <= |s| && k <= |s| - a
    requires forall i :: k <= i < |s[a..]| ==> s[a..][i] in ws
    ensures forall i :: a + k <= i < |s| ==> s[i] in ws
  {
    forall i | a + k <= i < |s|
      ensures s[i] in ws
    {
      assert s[i] == s[a..][i - a];
    }
  }

  /** Trimming twice is trimming once. */
  lemma TrimIdempotent(ws: set<char>, s: string)
    ensures Trim(ws, Trim(ws, s)) == Trim(ws, s)
  {
    var r := Trim(ws, s);
    TrimSpec(ws, s);
    assert TrimStart(ws, r) == r;
  }

  /** The longest prefix of `s` holding no white space. */
  function Word(ws: set<char>, s: string): (w: string)
    ensures |w| <= |s| && w == s[..|w|]
    ensures NoSpace(ws, w)
    ensures |w| == |s| || s[|w|] in ws
  {
    if s == [] || s[0] in ws then [] else [s[0]] + Word(ws, s[1..])
  }

  /** The maximal runs of non-white-space characters of `s`, in order: Python's `split()`
      with no argument, and JavaScript's `split(/\s+/)` on a string that is already trimmed
      and non-empty (there the regular expression never produces an empty piece). */
  function Fields(ws: set<char>, s: string): (r: seq<string>)
    ensures forall i :: 0 <= i < |r| ==> r[i] != [] && NoSpace(ws, r[i])
    decreases |s|
  {
    var t := TrimStart(ws, s);
    if t == [] then []
    else
      var w := Word(ws, t);
      assert w != [];
      var rest := Fields(ws, t[|w|..]);
      WordsCons(ws, w, rest);
      [w] + rest
  }

  lemma WordsCons(ws: set<char>, w: string, rest: seq<string>)
    requires w != [] && NoSpace(ws, w)
    requires forall i :: 0 <= i < |rest| ==> rest[i] != [] && NoSpace(ws, rest[i])
    ensures forall i :: 0 <= i < |[w] + rest| ==> ([w] + rest)[i] != [] && NoSpace(ws, ([w] + rest)[i])
  {
    forall i | 0 <= i < |[w] + rest|
      ensures ([w] + rest)[i] != [] && NoSpace(ws, ([w] + rest)[i])
    {
      if i > 0 {
        assert ([w] + rest)[i] == rest[i - 1];
      }
    }
  }

  /** Joins pieces with one separator character between neighbours. */
  function JoinWith(parts: seq<string>, sep: char): string
  {
    if parts == [] then []
    else if |parts| == 1 then parts[0]
    else parts[0] + [sep] + JoinWith(parts[1..], sep)
  }

  lemma WordOfConcat(ws: set<char>, w: string, t: string)
    requires NoSpace(ws, w)
    requires t == [] || t[0] in ws
    ensures Word(ws, w + t) == w
  {
    if w != [] {
      assert (w + t)[1..] == w[1..] + t;
      WordOfConcat(ws, w[1..], t);
    }
  }

  /** Splitting a space-separated list of non-empty words gives back the words: `Fields`
      undoes `JoinWith(_, ' ')` whenever the blank is white space. */
  lemma {:induction false} FieldsOfJoined(ws: set<char>, words: seq<string>)
    requires ' ' in ws
    requires forall i :: 0 <= i < |words| ==> words[i] != [] && NoSpace(ws, words[i])
    ensures Fields(ws, JoinWith(words, ' ')) == words
  {
    if words == [] {
    } else if |words| == 1 {
      FieldsOfWord(ws, words[0]);
    } else {
      var tail := words[1..];
      assert forall i :: 0 <= i < |tail| ==> tail[i] == words[i + 1];
      var rest := JoinWith(tail, ' ');
      FieldsOfJoined(ws, tail);
      JoinHead(tail, ' ');
      assert rest[0] == words[1][0] && words[1][0] !in ws;
      FieldsOfCons(ws, words[0], rest);
      assert JoinWith(words, ' ') == words[0] + [' '] + rest;
      assert [words[0]] + tail == words;
    }
  }

  /** A single word splits into itself. */
  lemma FieldsOfWord(ws: set<char>, w: string)
    requires w != [] && NoSpace(ws, w)
    ensures Fields(ws, w) == [w]
  {
    assert w[0] !in ws;
    assert TrimStart(ws, w) == w;
    assert w + [] == w;
    WordOfConcat(ws, w, []);
    assert Word(ws, w) == w;
    assert w[|w|..] == [];
    assert Fields(ws, []) == [];
  }

  /** A word, a blank and a string starting with a non-blank: the word comes first. */
  lemma FieldsOfCons(ws: set<char>, w: string, rest: string)
    requires ' ' in ws && w != [] && NoSpace(ws, w)
    requires rest != [] && rest[0] !in ws
    ensures Fields(ws, w + [' '] + rest) == [w] + Fields(ws, rest)
  {
    var s := w + [' '] + rest;
    assert s == w + ([' '] + rest);
    assert TrimStart(ws, s) == s;
    WordOfConcat(ws, w, [' '] + rest);
    assert s[|w|..] == [' '] + rest;
    assert TrimStart(ws, [' '] + rest) == TrimStart(ws, rest);
    assert TrimStart(ws, rest) == rest;
    assert Fields(ws, [' '] + rest) == Fields(ws, rest);
  }

  lemma JoinHead(parts: seq<string>, sep: char)
    requires parts != [] && parts[0] != []
    ensures JoinWith(parts, sep) != [] && JoinWith(parts, sep)[0] == parts[0][0]
  {
  }

  lemma {:induction false} JoinLast(parts: seq<string>, sep: char)
    requires parts != [] && parts[|parts| - 1] != []
    ensures var j := JoinWith(parts, sep);
      j != [] && j[|j| - 1] == parts[|parts| - 1][|parts[|parts| - 1]| - 1]
  {
    if |parts| > 1 {
      JoinLast(parts[1..], sep);
    }
  }

  /** The pieces between occurrences of `sep`: `s.split(sep)` in both languages. */
  function SplitOn(s: string, sep: char): (r: seq<string>)
    ensures |r| >= 1
  {
    if s == [] then [[]]
    else
      var rest := SplitOn(s[1..], sep);
      if s[0] == sep then [[]] + rest else [[s[0]] + rest[0]] + rest[1..]
  }

  /** No piece holds the separator. */
  lemma {:induction false} SplitOnPieces(s: string, sep: char)
    ensures forall i :: 0 <= i < |SplitOn(s, sep)| ==> sep !in SplitOn(s, sep)[i]
  {
    if s != [] {
      var rest := SplitOn(s[1..], sep);
      SplitOnPieces(s[1..], sep);
      var r := SplitOn(s, sep);
      forall i | 0 <= i < |r|
        ensures sep !in r[i]
      {
        if s[0] == sep {
          if i > 0 {
            assert r[i] == rest[i - 1];
          }
        } else if i == 0 {
          assert r[0] == [s[0]] + rest[0];
        } else {
          assert r[i] == rest[i];
        }
      }
    }
  }

  /** Joining the pieces back with the separator restores the string. */
  lemma {:induction false} JoinSplitOn(s: string, sep: char)
    ensures JoinWith(SplitOn(s, sep), sep) == s
  {
    if s != [] {
      var rest := SplitOn(s[1..], sep);
      JoinSplitOn(s[1..], sep);
      if s[0] == sep {
        assert SplitOn(s, sep) == [[]] + rest;
        assert s == [] + [sep] + s[1..];
      } else {
        var r := SplitOn(s, sep);
        assert r[0] == [s[0]] + rest[0] && r[1..] == rest[1..];
        if |rest| == 1 {
          assert s == [s[0]] + s[1..];
        } else {
          assert JoinWith(rest, sep) == rest[0] + [sep] + JoinWith(rest[1..], sep);
          assert s == [s[0]] + rest[0] + [sep] + JoinWith(rest[1..], sep);
        }
      }
    }
  }

  /** Splitting a separator-joined list of pieces without the separator gives back the
      pieces (the other half of the round trip). */
  lemma {:induction false} SplitOnJoin(parts: seq<string>, sep: char)
    requires |parts| >= 1
    requires forall i :: 0 <= i < |parts| ==> sep !in parts[i]
    ensures SplitOn(JoinWith(parts, sep), sep) == parts
  {
    if |parts| == 1 {
      SplitOnNoSep(parts[0], sep);
    } else {
      SplitOnJoin(parts[1..], sep);
      SplitOnPrefix(parts[0], JoinWith(parts[1..], sep), sep);
    }
  }

  lemma {:induction false} SplitOnNoSep(s: string, sep: char)
    requires sep !in s
    ensures SplitOn(s, sep) == [s]
  {
    if s != [] {
      SplitOnNoSep(s[1..], sep);
      assert [s[0]] + s[1..] == s;
    }
  }

  lemma {:induction false} SplitOnPrefix(p: string, t: string, sep: char)
    requires sep !in p
    ensures SplitOn(p + [sep] + t, sep) == [p] + SplitOn(t, sep)
  {
    if p == [] {
      assert p + [sep] + t == [sep] + t;
      assert ([sep] + t)[1..] == t;
    } else {
      assert (p + [sep] + t)[1..] == p[1..] + [sep] + t;
      SplitOnPrefix(p[1..], t, sep);
      assert [p[0]] + p[1..] == p;
    }
  }

  // ---------------------------------------------------------------------------------------
  // Digits and integer parsing

  predicate IsDecimalDigit(c: char) { '0' <= c <= '9' }

  predicate IsDigitIn(c: char, radix: nat) {
    IsDecimalDigit(c) || (radix == 16 && (('a' <= c <= 'f') || ('A' <= c <= 'F')))
  }

  function DigitValue(c: char): (v: nat)
    ensures IsDecimalDigit(c) ==> v < 10
    ensures v < 16
  {
    if IsDecimalDigit(c) then c as nat - '0' as nat
    else if 'a' <= c <= 'f' then c as nat - 'a' as nat + 10
    else if 'A' <= c <= 'F' then c as nat - 'A' as nat + 10
    else 0
  }

  /** The longest prefix of `s` made of digits of the radix. */
  function DigitPrefix(s: string, radix: nat): (r: string)
    ensures |r| <= |s| && r == s[..|r|]
    ensures forall i :: 0 <= i < |r| ==> IsDigitIn(r[i], radix)
    ensures |r| == |s| || !IsDigitIn(s[|r|], radix)
  {
    if s != [] && IsDigitIn(s[0], radix) then [s[0]] + DigitPrefix(s[1..], radix) else []
  }

  /** The value of a digit string, most significant digit first. */
  function DigitsValue(ds: string, radix: nat): nat
  {
    if ds == [] then 0 else DigitsValue(ds[..|ds| - 1], radix) * radix + DigitValue(ds[|ds| - 1])
  }

  /** The value of the longest run of digits at the start of `v`; `None` when there is none. */
  function ReadDigits(v: string, radix: nat): Option<nat>
  {
    var ds := DigitPrefix(v, radix);
    if ds == [] then None else Some(DigitsValue(ds, radix))
  }

  function Negate(o: Option<nat>): Option<int>
  {
    match o
    case None => None
    case Some(n) => Some(-(n as int))
  }

  /** `parseInt` after the sign: base 16 after a `0x`/`0X` prefix, base 10 otherwise. */
  function JsParseUnsigned(u: string): Option<nat>
  {
    if |u| >= 2 && u[0] == '0' && (u[1] == 'x' || u[1] == 'X') then ReadDigits(u[2..], 16)
    else ReadDigits(u, 10)
  }

  /** JavaScript's `parseInt(s)` with no radix argument: skip leading white space, take an
      optional sign, switch to base 16 after a `0x`/`0X` prefix, then read the longest run
      of digits; `None` stands for `NaN` (no digit at all). */
  function JsParseInt(s: string): Option<int>
  {
    var t := TrimStart(JsSpaces, s);
    if t != [] && t[0] == '-' then Negate(JsParseUnsigned(t[1..]))
    else if t != [] && t[0] == '+' then JsParseUnsigned(t[1..])
    else JsParseUnsigned(t)
  }

  /** Python's decimal integer literal as `int()` accepts it: digits, with single
      underscores allowed between digits. */
  predicate IsDecimalLiteral(u: string) {
    && u != []
    && IsDecimalDigit(u[0])
    && (|u| == 1 || (if u[1] == '_' then IsDecimalLiteral(u[2..]) else IsDecimalLiteral(u[1..])))
  }

  /** A non-empty run of digits is a literal. */
  lemma {:induction false} DigitsAreLiteral(s: string)
    requires s != [] && (forall i :: 0 <= i < |s| ==> IsDecimalDigit(s[i]))
    ensures IsDecimalLiteral(s)
  {
    if |s| > 1 {
      DigitsAreLiteral(s[1..]);
    }
  }

  function RemoveUnderscores(u: string): (r: string)
    ensures |r| <= |u|
  {
    if u == [] then []
    else (if u[0] == '_' then [] else [u[0]]) + RemoveUnderscores(u[1..])
  }

  /** `int()` after the sign: the rest must be one decimal literal. */
  function PyDecimal(u: string): Option<nat>
  {
    if IsDecimalLiteral(u) then Some(DigitsValue(RemoveUnderscores(u), 10)) else None
  }

  /** Python's `int(s)` on a string: the whole of `s`, once stripped of white space, must be
      an optionally signed decimal literal; `None` stands for the `ValueError` it raises. */
  function PyInt(s: string): Option<int>
  {
    var t := Trim(PySpaces, s);
    if t != [] && t[0] == '-' then Negate(PyDecimal(t[1..]))
    else if t != [] && t[0] == '+' then PyDecimal(t[1..])
    else PyDecimal(t)
  }

  // ---------------------------------------------------------------------------------------
  // Rendering naturals, lower-casing

  function DigitChar(d: nat): (c: char)
    requires d < 10
    ensures IsDecimalDigit(c) && DigitValue(c) == d
  {
    ('0' as int + d) as char
  }

  /** The decimal rendering of a natural, as JavaScript's template literals and Python's
      `str` produce it (no leading zeros). */
  function NatToString(n: nat): (s: string)
    ensures s != [] && (forall i :: 0 <= i < |s| ==> IsDecimalDigit(s[i]))
    ensures s[0] == '0' ==> n == 0
  {
    if n < 10 then [DigitChar(n)] else NatToString(n / 10) + [DigitChar(n % 10)]
  }

  lemma {:induction false} DigitsValueOfNatToString(n: nat)
    ensures DigitsValue(NatToString(n), 10) == n
  {
    if n >= 10 {
      var s := NatToString(n);
      assert s[..|s| - 1] == NatToString(n / 10);
      DigitsValueOfNatToString(n / 10);
    }
  }

  lemma DigitPrefixAll(s: string, radix: nat)
    requires forall i :: 0 <= i < |s| ==> IsDigitIn(s[i], radix)
    ensures DigitPrefix(s, radix) == s
  {
    if s != [] {
      DigitPrefixAll(s[1..], radix);
    }
  }

  lemma RemoveUnderscoresDigits(s: string)
    requires forall i :: 0 <= i < |s| ==> IsDecimalDigit(s[i])
    ensures RemoveUnderscores(s) == s
  {
    if s != [] {
      RemoveUnderscoresDigits(s[1..]);
    }
  }

  /** `parseInt` reads back what `NatToString` writes, with or without a minus sign. */
  lemma JsParseIntOfNatToString(n: nat)
    ensures JsParseInt(NatToString(n)) == Some(n)
    ensures JsParseInt("-" + NatToString(n)) == Some(-(n as int))
  {
    var s := NatToString(n);
    DigitsValueOfNatToString(n);
    JsParseUnsignedOfDigits(s);
    JsParseIntOfDigits(s);
    JsParseIntOfNegated(s);
  }

  /** A run of digits is read unsigned. */
  lemma JsParseIntOfDigits(s: string)
    requires s != [] && IsDecimalDigit(s[0])
    ensures JsParseInt(s) == JsParseUnsigned(s)
  {
    VisibleNotSpace(s[0]);
    TrimStartOfUnpadded(JsSpaces, s);
  }

  /** A minus sign before a run of digits negates it. */
  lemma JsParseIntOfNegated(s: string)
    ensures JsParseInt("-" + s) == Negate(JsParseUnsigned(s))
  {
    var m := "-" + s;
    VisibleNotSpace('-');
    TrimStartOfUnpadded(JsSpaces, m);
    assert m[0] == '-' && m[1..] == s;
  }

  lemma JsParseUnsignedOfDigits(s: string)
    requires s != [] && (forall i :: 0 <= i < |s| ==> IsDecimalDigit(s[i]))
    ensures JsParseUnsigned(s) == Some(DigitsValue(s, 10))
  {
    DigitPrefixAll(s, 10);
  }

  /** Python's `int()` reads back what `NatToString` writes, with or without a minus sign. */
  lemma PyIntOfNatToString(n: nat)
    ensures PyInt(NatToString(n)) == Some(n)
    ensures PyInt("-" + NatToString(n)) == Some(-(n as int))
  {
    var s := NatToString(n);
    DigitsValueOfNatToString(n);
    PyDecimalOfDigits(s);
    PyIntOfSigned(s);
  }

  lemma PyIntOfSigned(s: string)
    requires s != [] && (forall i :: 0 <= i < |s| ==> IsDecimalDigit(s[i]))
    ensures PyInt(s) == PyDecimal(s)
    ensures PyInt("-" + s) == Negate(PyDecimal(s))
  {
    VisibleNotSpace(s[0]);
    VisibleNotSpace(s[|s| - 1]);
    VisibleNotSpace('-');
    TrimOfUnpadded(PySpaces, s);
    var m := "-" + s;
    assert m[0] == '-' && m[|m| - 1] == s[|s| - 1];
    TrimOfUnpadded(PySpaces, m);
    assert m[1..] == s;
  }

  lemma PyDecimalOfDigits(s: string)
    requires s != [] && (forall i :: 0 <= i < |s| ==> IsDecimalDigit(s[i]))
    ensures PyDecimal(s) == Some(DigitsValue(s, 10))
  {
    RemoveUnderscoresDigits(s);
    DigitsAreLiteral(s);
  }

  lemma TrimOfUnpadded(ws: set<char>, s: string)
    requires s != [] && s[0] !in ws && s[|s| - 1] !in ws
    ensures Trim(ws, s) == s
  {
    TrimStartOfUnpadded(ws, s);
  }

  lemma TrimStartOfUnpadded(ws: set<char>, s: string)
    requires s != [] && s[0] !in ws
    ensures TrimStart(ws, s) == s
  {
  }

  function LowerChar(c: char): (r: char)
    ensures ('A' <= c <= 'Z') ==> r != c
  {
    if 'A' <= c <= 'Z' then (c as int + 32) as char else c
  }

  /** Lower-casing as `.lower()` / `toLowerCase()` does it on ASCII letters; other
      characters are kept. */
  function Lower(s: string): (r: string)
    ensures |r| == |s|
    ensures forall i :: 0 <= i < |s| ==> r[i] == LowerChar(s[i])
  {
    seq(|s|, i requires 0 <= i < |s| => LowerChar(s[i]))
  }

  /** Lower-casing is idempotent. */
  lemma LowerIdempotent(s: string)
    ensures Lower(Lower(s)) == Lower(s)
  {
  }

  /** Lower-casing works character by character, so it commutes with taking a suffix. */
  lemma LowerSuffix(s: string, a: nat)
    requires a <= |s|
    ensures Lower(s)[a..] == Lower(s[a..])
  {
  }
}
