/**
 * The few Python string operations the bank servers rely on, on `string`
 * (a sequence of Unicode scalar values): `str.isspace`, `str.strip`,
 * `str.split(sep)`, `str.split()`, `str.upper`, `str.isdigit` and `str(n)`
 * for a natural number.
 */
module Text {

  // ---------------------------------------------------------------------
  // Whitespace, strip() and split()
  // ---------------------------------------------------------------------

  /** The characters Python's `str.isspace` (and so `strip` and `split()`) treats as white space. */
  predicate IsSpace(c: char)
  {
    || ('\t' <= c <= '\r')            // U+0009 .. U+000D
    || ('\U{1C}' <= c <= '\U{1F}')    // file, group, record and unit separators
    || c == ' '
    || c == '\U{85}' || c == '\U{A0}' || c == '\U{1680}'
    || ('\U{2000}' <= c <= '\U{200A}')
    || c == '\U{2028}' || c == '\U{2029}' || c == '\U{202F}' || c == '\U{205F}' || c == '\U{3000}'
  }

  /** `s` without its leading white space. */
  function TrimStart(s: string): (r: string)
    ensures |r| <= |s| && r == s[|s| - |r|..]
    ensures forall i :: 0 <= i < |s| - |r| ==> IsSpace(s[i])
    ensures r != [] ==> !IsSpace(r[0])
  {
    if s != [] && IsSpace(s[0]) then TrimStart(s[1..]) else s
  }

  /** `s` without its trailing white space. */
  function TrimEnd(s: string): (r: string)
    ensures |r| <= |s| && r == s[..|r|]
    ensures forall i :: |r| <= i < |s| ==> IsSpace(s[i])
    ensures r != [] ==> !IsSpace(r[|r| - 1])
  {
    if s != [] && IsSpace(s[|s| - 1]) then TrimEnd(s[..|s| - 1]) else s
  }

  /** Python's `s.strip()`. */
  function Strip(s: string): string
  {
    TrimEnd(TrimStart(s))
  }

  /** A string is blank exactly when `s` is, for each of the two trims and for strip. */
  predicate Blank(s: string)
  {
    forall i :: 0 <= i < |s| ==> IsSpace(s[i])
  }

  lemma TrimStartBlank(s: string)
    ensures Blank(TrimStart(s)) <==> Blank(s)
  {
  }

  lemma TrimEndBlank(s: string)
    ensures Blank(TrimEnd(s)) <==> Blank(s)
  {
  }

  /** A stripped string is blank exactly when the string was. */
  lemma StripBlank(s: string)
    ensures Blank(Strip(s)) <==> Blank(s)
  {
    TrimStartBlank(s);
    TrimEndBlank(TrimStart(s));
  }

  /** The position of the first `c` in `s`. */
  function IndexOf(s: string, c: char): (i: nat)
    requires c in s
    ensures i < |s| && s[i] == c && c !in s[..i]
  {
    if s[0] == c then 0 else 1 + IndexOf(s[1..], c)
  }

  /**
   * Python's `s.split(sep)` for a one-character separator: the pieces of
   * `s` between occurrences of `sep`, empty pieces included; always at
   * least one piece, and no piece contains the separator.
   */
  function Split(s: string, sep: char): (fields: seq<string>)
    ensures |fields| >= 1
    ensures forall i :: 0 <= i < |fields| ==> sep !in fields[i]
    decreases |s|
  {
    if sep !in s then [s]
    else
      var i := IndexOf(s, sep);
      [s[..i]] + Split(s[i + 1..], sep)
  }

  /** Python's `sep.join(fields)`. */
  function Join(fields: seq<string>, sep: char): string
    requires |fields| >= 1
  {
    if |fields| == 1 then fields[0] else fields[0] + [sep] + Join(fields[1..], sep)
  }

  /** Joining the pieces of a split gives back the string that was split. */
  lemma {:induction false} JoinSplit(s: string, sep: char)
    ensures Join(Split(s, sep), sep) == s
    decreases |s|
  {
    if sep in s {
      var i := IndexOf(s, sep);
      JoinSplit(s[i + 1..], sep);
      assert Split(s, sep)[1..] == Split(s[i + 1..], sep);
      assert s == s[..i] + [sep] + s[i + 1..];
    }
  }

  /** The first separator of `a + [sep] + rest`, for a separator-free `a`, is the one after `a`. */
  lemma {:induction false} IndexOfAfter(a: string, sep: char, rest: string)
    requires sep !in a
    ensures IndexOf(a + [sep] + rest, sep) == |a|
  {
    if a != [] {
      assert (a + [sep] + rest)[1..] == a[1..] + [sep] + rest;
      IndexOfAfter(a[1..], sep, rest);
    }
  }

  /** Splitting a join of separator-free pieces gives back the pieces. */
  lemma {:induction false} SplitJoin(fields: seq<string>, sep: char)
    requires |fields| >= 1
    requires forall i :: 0 <= i < |fields| ==> sep !in fields[i]
    ensures Split(Join(fields, sep), sep) == fields
  {
    if |fields| > 1 {
      var first, rest := fields[0], Join(fields[1..], sep);
      var s := first + [sep] + rest;
      assert Join(fields, sep) == s;
      assert s[|first|] == sep;
      IndexOfAfter(first, sep, rest);
      assert s[..|first|] == first;
      assert s[|first| + 1..] == rest;
      SplitJoin(fields[1..], sep);
      assert Split(s, sep) == [first] + Split(rest, sep);
      assert fields == [first] + fields[1..];
    }
  }

  /** The first piece of a split is what comes before the first separator. */
  lemma SplitFirst(w: string, sep: char, rest: string)
    requires sep !in w
    ensures Split(w + [sep] + rest, sep)[0] == w
  {
    var s := w + [sep] + rest;
    assert s[|w|] == sep;
    IndexOfAfter(w, sep, rest);
    assert s[..|w|] == w;
  }

  /**
   * Stripping a string that starts with a word and a non-space separator
   * keeps that start.
   */
  lemma StripKeepsStart(w: string, sep: char, rest: string)
    requires w != [] && !IsSpace(w[0]) && !IsSpace(sep)
    ensures var t := Strip(w + [sep] + rest);
      |t| > |w| && t == w + [sep] + t[|w| + 1..]
  {
    var s := w + [sep] + rest;
    assert s[0] == w[0];
    assert TrimStart(s) == s;
    assert s[|w|] == sep;
    var t := TrimEnd(s);
    assert |t| > |w|;
    assert t[..|w| + 1] == s[..|w| + 1] == w + [sep];
  }

  /** Python's `s.split()` with no argument: the maximal runs of non-space characters. */
  function Words(s: string): seq<string>
    decreases |s|
  {
    if s == [] then []
    else if IsSpace(s[0]) then Words(s[1..])
    else
      var k := WordLength(s);
      [s[..k]] + Words(s[k..])
  }

  /** Every element of `s.split()` is a non-empty run of non-space characters. */
  lemma {:induction false} WordsAreWords(s: string)
    ensures forall i :: 0 <= i < |Words(s)| ==> IsWord(Words(s)[i])
    decreases |s|
  {
    if s != [] {
      if IsSpace(s[0]) {
        WordsAreWords(s[1..]);
      } else {
        var k := WordLength(s);
        var w := s[..k];
        assert IsWord(w) by {
          forall i | 0 <= i < |w| ensures !IsSpace(w[i]) {
            assert w[i] == s[i];
          }
        }
        WordsAreWords(s[k..]);
        assert Words(s) == [w] + Words(s[k..]);
      }
    }
  }

  /** `s.split()` is empty exactly when `s` holds nothing but white space. */
  lemma {:induction false} WordsEmpty(s: string)
    ensures Words(s) == [] <==> Blank(s)
    decreases |s|
  {
    if s != [] && IsSpace(s[0]) {
      WordsEmpty(s[1..]);
      assert forall i :: 1 <= i < |s| ==> s[i] == s[1..][i - 1];
    }
  }

  /** The characters of `s` that are not white space, in order. */
  function NonSpace(s: string): string
  {
    if s == [] then [] else (if IsSpace(s[0]) then [] else [s[0]]) + NonSpace(s[1..])
  }

  /** The concatenation of a sequence of strings. */
  function Concat(ws: seq<string>): string
  {
    if ws == [] then [] else ws[0] + Concat(ws[1..])
  }

  /** The words of `s.split()`, put back together, are every non-space character of `s`, in order. */
  lemma {:induction false} WordsKeepNonSpace(s: string)
    ensures Concat(Words(s)) == NonSpace(s)
    decreases |s|
  {
    if s != [] && !IsSpace(s[0]) {
      var k := WordLength(s);
      WordsKeepNonSpace(s[k..]);
      NonSpaceOfRun(s, k);
      assert Words(s) == [s[..k]] + Words(s[k..]);
      assert Words(s)[1..] == Words(s[k..]);
    } else if s != [] {
      WordsKeepNonSpace(s[1..]);
    }
  }

  /** A leading run of `k` non-space characters survives NonSpace as it is. */
  lemma {:induction false} NonSpaceOfRun(t: string, k: nat)
    requires k <= |t|
    requires forall i :: 0 <= i < k ==> !IsSpace(t[i])
    ensures NonSpace(t) == t[..k] + NonSpace(t[k..])
    decreases k
  {
    if k > 0 {
      NonSpaceOfRun(t[1..], k - 1);
      assert t[1..][..k - 1] == t[1..k];
      assert t[1..][k - 1..] == t[k..];
      assert t[..k] == [t[0]] + t[1..k];
    }
  }

  /**
   * `" ".join(words).split()` gives back `words` when each is a non-empty
   * run of non-space characters: `split()` cuts at every white-space run
   * and nowhere else.
   */
  lemma {:induction false} WordsOfJoin(words: seq<string>)
    requires |words| >= 1
    requires forall i :: 0 <= i < |words| ==> IsWord(words[i])
    ensures Words(Join(words, ' ')) == words
  {
    var w := words[0];
    if |words| == 1 {
      WordLengthOfWord(w, []);
      assert w + [] == w;
      assert w[|w|..] == [];
    } else {
      var rest := Join(words[1..], ' ');
      var s := w + [' '] + rest;
      assert Join(words, ' ') == s;
      WordLengthOfWord(w, [' '] + rest);
      assert s == w + ([' '] + rest);
      assert s[..|w|] == w;
      assert s[|w|..] == [' '] + rest;
      assert ([' '] + rest)[1..] == rest;
      WordsOfJoin(words[1..]);
      assert words == [w] + words[1..];
    }
  }

  /** Leading white space, of any kind and length, does not change `split()`. */
  lemma {:induction false} WordsSkipBlank(sp: string, t: string)
    requires Blank(sp)
    ensures Words(sp + t) == Words(t)
    decreases |sp|
  {
    if sp != [] {
      assert (sp + t)[0] == sp[0] && IsSpace(sp[0]);
      assert (sp + t)[1..] == sp[1..] + t;
      assert Blank(sp[1..]) by {
        forall i | 0 <= i < |sp| - 1 ensures IsSpace(sp[1..][i]) {
          assert sp[1..][i] == sp[i + 1];
        }
      }
      WordsSkipBlank(sp[1..], t);
    } else {
      assert sp + t == t;
    }
  }

  /**
   * `split()` of any string made of white space, then a word, then either
   * nothing or more text that starts with white space, yields that word
   * followed by the words of the rest. Together with WordsEmpty this pins
   * `split()` down on every string: it cuts at each run of white space,
   * whatever its characters and length, and nowhere else.
   */
  lemma WordsOfLeadingWord(sp: string, w: string, rest: string)
    requires Blank(sp) && IsWord(w)
    requires rest != [] ==> IsSpace(rest[0])
    ensures Words(sp + w + rest) == [w] + Words(rest)
  {
    WordsSkipBlank(sp, w + rest);
    assert sp + w + rest == sp + (w + rest);
    var t := w + rest;
    WordLengthOfWord(w, rest);
    assert t[0] == w[0];
    assert t[..|w|] == w;
    assert t[|w|..] == rest;
  }

  /** A word followed by white space or by nothing is exactly the leading run. */
  lemma WordLengthOfWord(w: string, rest: string)
    requires IsWord(w)
    requires rest != [] ==> IsSpace(rest[0])
    ensures WordLength(w + rest) == |w|
  {
    var t := w + rest;
    assert forall i :: 0 <= i < |w| ==> t[i] == w[i];
    assert rest != [] ==> t[|w|] == rest[0];
  }

  /** A non-empty run of non-space characters. */
  predicate IsWord(w: string)
  {
    w != [] && forall i :: 0 <= i < |w| ==> !IsSpace(w[i])
  }

  /** The length of the run of non-space characters that starts `t`. */
  function WordLength(t: string): (k: nat)
    ensures k <= |t|
    ensures forall i :: 0 <= i < k ==> !IsSpace(t[i])
    ensures k < |t| ==> IsSpace(t[k])
    ensures t != [] && !IsSpace(t[0]) ==> k > 0
  {
    if t == [] || IsSpace(t[0]) then 0 else 1 + WordLength(t[1..])
  }

  // ---------------------------------------------------------------------
  // upper() and isdigit()
  // ---------------------------------------------------------------------

  /**
   * Upper case of one character, as far as Python's `str.upper` can turn it
   * into an ASCII letter: `a`..`z`, the dotless i (U+0131) and the long s
   * (U+017F). Every other character is left as it is.
   */
  function UpperChar(c: char): char
  {
    if 'a' <= c <= 'z' then (c as int - 32) as char
    else if c == '\U{131}' then 'I'
    else if c == '\U{17F}' then 'S'
    else c
  }

  /** Python's `s.upper()`, character by character (see UpperChar). */
  function Upper(s: string): (r: string)
    ensures |r| == |s|
    ensures forall i :: 0 <= i < |s| ==> r[i] == UpperChar(s[i])
  {
    if s == [] then [] else [UpperChar(s[0])] + Upper(s[1..])
  }

  /** Upper-casing twice is upper-casing once. */
  lemma UpperIdempotent(s: string)
    ensures Upper(Upper(s)) == Upper(s)
  {
    forall i | 0 <= i < |s| ensures UpperChar(UpperChar(s[i])) == UpperChar(s[i]) {
      var c := s[i];
      if 'a' <= c <= 'z' {
        assert 'A' <= UpperChar(c) <= 'Z';
      }
    }
  }

  predicate IsDigit(c: char)
  {
    '0' <= c <= '9'
  }

  /** Python's `s.isdigit()` over ASCII digits: non-empty and digits only. */
  predicate IsDigits(s: string)
  {
    s != [] && forall i :: 0 <= i < |s| ==> IsDigit(s[i])
  }

  // ---------------------------------------------------------------------
  // str(n) for a natural number, and its inverse
  // ---------------------------------------------------------------------

  function DigitChar(d: nat): (c: char)
    requires d < 10
    ensures IsDigit(c) && c as int - '0' as int == d
  {
    ('0' as int + d) as char
  }

  /** Python's `str(n)`: the decimal digits of `n`, most significant first, without leading zeros. */
  function NatToString(n: nat): (s: string)
    ensures IsDigits(s)
    ensures |s| > 1 ==> s[0] != '0'
    decreases n
  {
    if n < 10 then [DigitChar(n)] else NatToString(n / 10) + [DigitChar(n % 10)]
  }

  /** The number a string of decimal digits denotes. */
  function DigitsValue(s: string): nat
    requires forall i :: 0 <= i < |s| ==> IsDigit(s[i])
  {
    if s == [] then 0
    else DigitsValue(s[..|s| - 1]) * 10 + DigitOf(s[|s| - 1])
  }

  function DigitOf(c: char): (d: nat)
    requires IsDigit(c)
    ensures d < 10
  {
    c as int - '0' as int
  }

  /** Reading back the digits that `str(n)` writes gives `n`. */
  lemma {:induction false} DigitsValueOfNatToString(n: nat)
    ensures DigitsValue(NatToString(n)) == n
    decreases n
  {
    if n >= 10 {
      var s := NatToString(n);
      assert s[..|s| - 1] == NatToString(n / 10);
      DigitsValueOfNatToString(n / 10);
    }
  }

  /** Distinct numbers have distinct decimal representations. */
  lemma NatToStringInjective(m: nat, n: nat)
    ensures NatToString(m) == NatToString(n) ==> m == n
  {
    DigitsValueOfNatToString(m);
    DigitsValueOfNatToString(n);
  }
}
