/** The few Python string operations the chatbot relies on, on `seq<char>`.
    A Dafny `char` is a Unicode scalar value, as a Python `str` element is. */
module Text {

  /** Python's `str.isspace()` for one character: the characters `str.split()`
      with no argument and `str.strip()` treat as whitespace. */
  predicate IsSpace(c: char) {
    || c == ' ' || c == '\t' || c == '\n' || c == '\r'
    || c == '\U{0B}' || c == '\U{0C}'
    || ('\U{1C}' <= c <= '\U{1F}')
    || c == '\U{85}' || c == '\U{A0}' || c == '\U{1680}'
    || ('\U{2000}' <= c <= '\U{200A}')
    || c == '\U{2028}' || c == '\U{2029}' || c == '\U{202F}' || c == '\U{205F}' || c == '\U{3000}'
  }

  predicate Blank(s: string) {
    forall i :: 0 <= i < |s| ==> IsSpace(s[i])
  }

  /** `s.count(c)` for a one-character `c`. */
  function Count(s: string, c: char): nat {
    if s == [] then 0 else (if s[0] == c then 1 else 0) + Count(s[1..], c)
  }

  /** `s[:n]`: the first `n` elements, or all of `s` when it is shorter. */
  function Take<T>(s: seq<T>, n: nat): (r: seq<T>)
    ensures r <= s
    ensures |r| == if |s| <= n then |s| else n
  {
    if |s| <= n then s else s[..n]
  }

  // ---------------------------------------------------------------- split(sep)

  /** `s.split(sep)` for a one-character separator: every occurrence of `sep`
      cuts, empty pieces are kept, so there is always at least one piece. */
  function Split(s: string, sep: char): (pieces: seq<string>)
    ensures |pieces| == Count(s, sep) + 1
    ensures forall i :: 0 <= i < |pieces| ==> sep !in pieces[i]
    decreases |s|
  {
    if s == [] then [""]
    else
      var rest := Split(s[1..], sep);
      if s[0] == sep then [""] + rest
      else [[s[0]] + rest[0]] + rest[1..]
  }

  /** `sep.join(pieces)`. */
  function Join(pieces: seq<string>, sep: char): string
    decreases |pieces|
  {
    if pieces == [] then ""
    else if |pieces| == 1 then pieces[0]
    else pieces[0] + [sep] + Join(pieces[1..], sep)
  }

  /** Splitting and joining on the same separator gives back the text. */
  lemma {:induction false} JoinSplit(s: string, sep: char)
    ensures Join(Split(s, sep), sep) == s
    decreases |s|
  {
    if s != [] {
      var rest := Split(s[1..], sep);
      JoinSplit(s[1..], sep);
      if s[0] == sep {
        assert Split(s, sep) == [""] + rest;
      } else {
        var pieces := [[s[0]] + rest[0]] + rest[1..];
        assert Split(s, sep) == pieces;
        if |rest| == 1 {
          assert Join(pieces, sep) == [s[0]] + rest[0];
        } else {
          assert pieces[1..] == rest[1..];
          assert Join(rest, sep) == rest[0] + [sep] + Join(rest[1..], sep);
          assert Join(pieces, sep) == [s[0]] + rest[0] + [sep] + Join(rest[1..], sep);
        }
      }
    }
  }

  /** The text before the first `c` (all of `s` when there is none). */
  function UpTo(s: string, c: char): (r: string)
    ensures r <= s && c !in r
    ensures |r| < |s| ==> s[|r|] == c
  {
    if s == [] || s[0] == c then [] else [s[0]] + UpTo(s[1..], c)
  }

  /** The first piece of a split is the text before the first separator. */
  lemma {:induction false} SplitFirst(s: string, sep: char)
    ensures Split(s, sep)[0] == UpTo(s, sep)
    decreases |s|
  {
    if s != [] && s[0] != sep {
      SplitFirst(s[1..], sep);
    }
  }

  // ---------------------------------------------------------------- split()

  /** The longest prefix of `s` that holds no whitespace. */
  function Token(s: string): (t: string)
    ensures t <= s
    ensures forall i :: 0 <= i < |t| ==> !IsSpace(t[i])
    ensures |t| < |s| ==> IsSpace(s[|t|])
  {
    if s == [] || IsSpace(s[0]) then [] else [s[0]] + Token(s[1..])
  }

  /** `s.split()` with no argument: the maximal runs of non-whitespace. */
  function Words(s: string): (ws: seq<string>)
    ensures forall i :: 0 <= i < |ws| ==> ws[i] != []
    ensures forall i, j :: 0 <= i < |ws| && 0 <= j < |ws[i]| ==> !IsSpace(ws[i][j])
    decreases |s|
  {
    if s == [] then []
    else if IsSpace(s[0]) then Words(s[1..])
    else
      var t := Token(s);
      [t] + Words(s[|t|..])
  }

  /** `s.split()` is empty exactly when `s` is empty or all whitespace. */
  lemma {:induction false} WordsEmptyIffBlank(s: string)
    ensures Words(s) == [] <==> Blank(s)
    decreases |s|
  {
    if s != [] {
      if IsSpace(s[0]) {
        WordsEmptyIffBlank(s[1..]);
        if Blank(s[1..]) {
          forall i | 0 <= i < |s| ensures IsSpace(s[i]) {
            if i > 0 { assert s[i] == s[1..][i - 1]; }
          }
        }
      } else {
        assert !Blank(s);
      }
    }
  }

  /** `split()` as a scan from left to right: `cur` is the word being read;
      whitespace ends it, the end of the text ends it too. */
  function ScanWords(s: string, cur: string): seq<string>
    decreases |s|
  {
    if s == [] then (if cur == [] then [] else [cur])
    else if IsSpace(s[0]) then (if cur == [] then [] else [cur]) + ScanWords(s[1..], [])
    else ScanWords(s[1..], cur + [s[0]])
  }

  /** The scan, started between words, reads the words of the text. */
  lemma {:induction false} ScanBetweenWords(s: string)
    ensures ScanWords(s, []) == Words(s)
    decreases |s|, 0
  {
    if s != [] {
      if IsSpace(s[0]) {
        ScanBetweenWords(s[1..]);
      } else {
        assert ScanWords(s, []) == ScanWords(s[1..], [s[0]]) by {
          assert [] + [s[0]] == [s[0]];
        }
        ScanInWord(s[1..], [s[0]]);
        var t := Token(s);
        assert Words(s) == [t] + Words(s[|t|..]);
        assert t == [s[0]] + Token(s[1..]);
        assert s[|t|..] == s[1..][|Token(s[1..])|..];
      }
    }
  }

  /** The scan, started inside the word `cur`, completes that word with the
      token ahead and then reads the remaining words. */
  lemma {:induction false} ScanInWord(s: string, cur: string)
    requires cur != []
    ensures ScanWords(s, cur) == [cur + Token(s)] + Words(s[|Token(s)|..])
    decreases |s|, 2
  {
    if s == [] {
      assert cur + Token(s) == cur;
    } else if IsSpace(s[0]) {
      ScanInWordAtSpace(s, cur);
    } else {
      ScanInWordAtLetter(s, cur);
    }
  }

  /** Whitespace ends the word being read. */
  lemma {:induction false} ScanInWordAtSpace(s: string, cur: string)
    requires cur != [] && s != [] && IsSpace(s[0])
    ensures ScanWords(s, cur) == [cur + Token(s)] + Words(s[|Token(s)|..])
    decreases |s|, 1
  {
    assert Token(s) == [];
    assert cur + Token(s) == cur;
    assert s[|Token(s)|..] == s;
    assert Words(s) == Words(s[1..]);
    ScanBetweenWords(s[1..]);
  }

  /** Any other character extends the word being read. */
  lemma {:induction false} ScanInWordAtLetter(s: string, cur: string)
    requires cur != [] && s != [] && !IsSpace(s[0])
    ensures ScanWords(s, cur) == [cur + Token(s)] + Words(s[|Token(s)|..])
    decreases |s|, 1
  {
    var rest, w := s[1..], cur + [s[0]];
    ScanInWord(rest, w);
    TokenAtLetter(s, cur);
  }

  /** A character that is not whitespace starts the token, and the text after
      the token is the text after the rest of the token. */
  lemma TokenAtLetter(s: string, cur: string)
    requires s != [] && !IsSpace(s[0])
    ensures cur + [s[0]] + Token(s[1..]) == cur + Token(s)
    ensures s[|Token(s)|..] == s[1..][|Token(s[1..])|..]
  {
    assert Token(s) == [s[0]] + Token(s[1..]);
  }

  /** `split()` yields exactly what the scan yields: the maximal runs of
      non-whitespace, in order. */
  lemma WordsIsScan(s: string)
    ensures Words(s) == ScanWords(s, [])
  {
    ScanBetweenWords(s);
  }

  // ---------------------------------------------------------------- strip()

  function TrimStart(s: string): (r: string)
    ensures |r| <= |s| && r == s[|s| - |r|..]
    ensures r != [] ==> !IsSpace(r[0])
    ensures Blank(s[..|s| - |r|])
  {
    if s != [] && IsSpace(s[0]) then TrimStart(s[1..]) else s
  }

  function TrimEnd(s: string): (r: string)
    ensures r <= s
    ensures r != [] ==> !IsSpace(r[|r| - 1])
    ensures Blank(s[|r|..])
  {
    if s != [] && IsSpace(s[|s| - 1]) then TrimEnd(s[..|s| - 1]) else s
  }

  /** `s.strip()`: leading and trailing whitespace removed.  The text is
      whitespace, then the result (a prefix of the text once its leading
      whitespace is gone), then whitespace. */
  function Strip(s: string): (r: string)
    ensures |r| <= |s|
    ensures r <= TrimStart(s) && TrimStart(s) == s[|s| - |TrimStart(s)|..]
    ensures Blank(s[..|s| - |TrimStart(s)|]) && Blank(TrimStart(s)[|r|..])
    ensures r != [] ==> !IsSpace(r[0]) && !IsSpace(r[|r| - 1])
  {
    TrimEnd(TrimStart(s))
  }

  // ---------------------------------------------------------------- lower(), upper(), replace(), in

  function LowerChar(c: char): char {
    if 'A' <= c <= 'Z' then (c as int + 32) as char else c
  }

  function UpperChar(c: char): char {
    if 'a' <= c <= 'z' then (c as int - 32) as char else c
  }

  /** `s.lower()`, for the ASCII letters. */
  function Lower(s: string): (r: string)
    ensures |r| == |s|
    ensures forall i :: 0 <= i < |s| ==> r[i] == LowerChar(s[i])
  {
    seq(|s|, i requires 0 <= i < |s| => LowerChar(s[i]))
  }

  /** `s.upper()`, for the ASCII letters. */
  function Upper(s: string): (r: string)
    ensures |r| == |s|
    ensures forall i :: 0 <= i < |s| ==> r[i] == UpperChar(s[i])
  {
    seq(|s|, i requires 0 <= i < |s| => UpperChar(s[i]))
  }

  /** Lower-casing leaves whitespace where it was. */
  lemma LowerKeepsBlank(s: string)
    ensures Blank(Lower(s)) <==> Blank(s)
  {
    assert forall i :: 0 <= i < |s| ==> (IsSpace(Lower(s)[i]) <==> IsSpace(s[i]));
  }

  /** `s.replace(find, repl)` for one-character `find` and `repl`. */
  function ReplaceChar(s: string, find: char, repl: char): (r: string)
    ensures |r| == |s|
    ensures forall i :: 0 <= i < |s| ==> r[i] == if s[i] == find then repl else s[i]
  {
    seq(|s|, i requires 0 <= i < |s| => if s[i] == find then repl else s[i])
  }

  /** Python's `sub in s`. */
  predicate Contains(s: string, sub: string) {
    exists i :: 0 <= i <= |s| && sub <= s[i..]
  }

  // ---------------------------------------------------------------- str(n)

  /** The character of the decimal digit `d`. */
  function Digit(d: nat): char
    requires d < 10
  {
    ('0' as int + d) as char
  }

  /** `str(n)` for a natural number. */
  function Decimal(n: nat): (r: string)
    ensures |r| >= 1
    ensures forall i :: 0 <= i < |r| ==> '0' <= r[i] <= '9'
    ensures n > 0 ==> r[0] != '0'
  {
    if n < 10 then [Digit(n)] else Decimal(n / 10) + [Digit(n % 10)]
  }

  /** The number a string of decimal digits denotes, most significant first:
      Python's `int(s)`. */
  function DigitsValue(s: string): int
    decreases |s|
  {
    if s == [] then 0 else 10 * DigitsValue(s[..|s| - 1]) + (s[|s| - 1] as int - '0' as int)
  }

  /** Reading back `str(n)` gives `n`. */
  lemma {:induction false} DecimalValue(n: nat)
    ensures DigitsValue(Decimal(n)) == n
    decreases n
  {
    if n >= 10 {
      DecimalValue(n / 10);
      var r := Decimal(n);
      assert r == Decimal(n / 10) + [Digit(n % 10)];
      assert r[..|r| - 1] == Decimal(n / 10);
      assert n == 10 * (n / 10) + n % 10;
    }
  }

  /** Different numbers print differently. */
  lemma DecimalInjective(m: nat, n: nat)
    requires Decimal(m) == Decimal(n)
    ensures m == n
  {
    DecimalValue(m);
    DecimalValue(n);
  }
}
