/** The Python string operations the scenario parser relies on:
    str.strip(), str.strip("'"), str.split(), str.lower(), `in` on strings,
    str.startswith('#') and int() on a token. */
module Text {

  /** The ASCII characters Python's str.isspace() accepts. */
  predicate IsSpace(c: char)
  {
    c == ' ' || c == '\t' || c == '\n' || c == '\r' || c == '\U{000B}' || c == '\U{000C}'
    || ('\U{001C}' <= c <= '\U{001F}')
  }

  /** Number of leading white-space characters. */
  function LeadingSpaces(s: string): (n: nat)
    ensures n <= |s|
    ensures forall k :: 0 <= k < n ==> IsSpace(s[k])
    ensures n == |s| || !IsSpace(s[n])
  {
    if s == [] || !IsSpace(s[0]) then 0 else 1 + LeadingSpaces(s[1..])
  }

  /** Number of trailing white-space characters. */
  function TrailingSpaces(s: string): (n: nat)
    ensures n <= |s|
    ensures forall k :: |s| - n <= k < |s| ==> IsSpace(s[k])
    ensures n == |s| || !IsSpace(s[|s| - n - 1])
  {
    if s == [] || !IsSpace(s[|s| - 1]) then 0 else 1 + TrailingSpaces(s[..|s| - 1])
  }

  /** str.strip() with no argument: the white space at both ends is removed. */
  function Strip(s: string): (r: string)
    ensures r == [] || (!IsSpace(r[0]) && !IsSpace(r[|r| - 1]))
  {
    var t := s[LeadingSpaces(s)..];
    t[..|t| - TrailingSpaces(t)]
  }

  /** Number of leading copies of c. */
  function LeadingRun(s: string, c: char): (n: nat)
    ensures n <= |s|
    ensures forall k :: 0 <= k < n ==> s[k] == c
    ensures n == |s| || s[n] != c
  {
    if s == [] || s[0] != c then 0 else 1 + LeadingRun(s[1..], c)
  }

  /** Number of trailing copies of c. */
  function TrailingRun(s: string, c: char): (n: nat)
    ensures n <= |s|
    ensures forall k :: |s| - n <= k < |s| ==> s[k] == c
    ensures n == |s| || s[|s| - n - 1] != c
  {
    if s == [] || s[|s| - 1] != c then 0 else 1 + TrailingRun(s[..|s| - 1], c)
  }

  /** str.strip(c) for one character c: the copies of c at both ends are removed. */
  function StripChar(s: string, c: char): (r: string)
    ensures r == [] || (r[0] != c && r[|r| - 1] != c)
  {
    var t := s[LeadingRun(s, c)..];
    t[..|t| - TrailingRun(t, c)]
  }

  /** Length of the leading run of non-space characters. */
  function WordLength(s: string): (n: nat)
    ensures n <= |s|
    ensures forall k :: 0 <= k < n ==> !IsSpace(s[k])
    ensures n == |s| || IsSpace(s[n])
  {
    if s == [] || IsSpace(s[0]) then 0 else 1 + WordLength(s[1..])
  }

  /** A token: non-empty, without white space. */
  predicate IsWord(w: string)
  {
    w != [] && forall k :: 0 <= k < |w| ==> !IsSpace(w[k])
  }

  /** str.split() with no argument: the maximal runs of non-space characters, in order. */
  function Split(s: string): (r: seq<string>)
    ensures forall j :: 0 <= j < |r| ==> IsWord(r[j])
    ensures s != [] && !IsSpace(s[0]) ==> r != [] && r[0] == s[..WordLength(s)]
    decreases |s|
  {
    var t := s[LeadingSpaces(s)..];
    if t == [] then []
    else
      var n := WordLength(t);
      assert IsWord(t[..n]);
      [t[..n]] + Split(t[n..])
  }

  /** The ASCII part of str.lower(). */
  function LowerChar(c: char): (d: char)
    ensures d == '#' <==> c == '#'
  {
    if 'A' <= c <= 'Z' then (c as int + 32) as char else c
  }

  function Lower(s: string): (r: string)
    ensures |r| == |s|
  {
    if s == [] then [] else [LowerChar(s[0])] + Lower(s[1..])
  }

  /** Python's `needle in hay` on strings: needle is a prefix of some suffix of hay. */
  predicate Contains(hay: string, needle: string)
  {
    needle <= hay || (hay != [] && Contains(hay[1..], needle))
  }

  predicate StartsWithHash(s: string) { s != [] && s[0] == '#' }

  predicate IsDigit(c: char) { '0' <= c <= '9' }

  predicate AllDigits(d: string) { forall k :: 0 <= k < |d| ==> IsDigit(d[k]) }

  /** The digits of a token after an optional sign. */
  function Unsigned(t: string): string
  {
    if t != [] && (t[0] == '-' || t[0] == '+') then t[1..] else t
  }

  /** A token int() accepts: an optional sign followed by decimal digits. */
  predicate IsIntToken(t: string)
  {
    Unsigned(t) != [] && AllDigits(Unsigned(t))
  }

  function DigitsValue(d: string): (n: nat)
    requires AllDigits(d)
  {
    if d == [] then 0 else DigitsValue(d[..|d| - 1]) * 10 + (d[|d| - 1] as int - '0' as int)
  }

  /** int(t) on a well-formed token. */
  function ParseInt(t: string): (n: int)
    requires IsIntToken(t)
    ensures t[0] != '-' ==> n >= 0
    ensures n < 0 ==> t[0] == '-'
  {
    if t[0] == '-' then -(DigitsValue(Unsigned(t)) as int) else DigitsValue(Unsigned(t))
  }

  /** list(map(int, tokens)). */
  function ParseInts(tokens: seq<string>): (r: seq<int>)
    requires forall j :: 0 <= j < |tokens| ==> IsIntToken(tokens[j])
    ensures |r| == |tokens|
  {
    seq(|tokens|, j requires 0 <= j < |tokens| => ParseInt(tokens[j]))
  }

  /** str.strip() removes a run of white space at each end and nothing else:
      the result is the slice of s after its leading white space, with only
      white space after it. */
  lemma StripRemovesOuterSpace(s: string)
    ensures var i, r := LeadingSpaces(s), Strip(s);
            i + |r| <= |s| && r == s[i..i + |r|] &&
            (forall k :: 0 <= k < i ==> IsSpace(s[k])) &&
            (forall k :: i + |r| <= k < |s| ==> IsSpace(s[k]))
  {
    var i := LeadingSpaces(s);
    var t := s[i..];
    var r := Strip(s);
    assert r == s[i..i + |r|];
    assert forall k :: i + |r| <= k < |s| ==> s[k] == t[k - i];
  }

  /** str.strip(c) removes a run of c at each end and nothing else. */
  lemma StripCharRemovesOuterRuns(s: string, c: char)
    ensures var i, r := LeadingRun(s, c), StripChar(s, c);
            i + |r| <= |s| && r == s[i..i + |r|] &&
            (forall k :: 0 <= k < i ==> s[k] == c) &&
            (forall k :: i + |r| <= k < |s| ==> s[k] == c)
  {
    var i := LeadingRun(s, c);
    var t := s[i..];
    var r := StripChar(s, c);
    assert r == s[i..i + |r|];
    assert forall k :: i + |r| <= k < |s| ==> s[k] == t[k - i];
  }

  /** Lowering keeps a '#' in first position and adds none. */
  lemma LowerStartsWithHash(s: string)
    ensures StartsWithHash(Lower(s)) <==> StartsWithHash(s)
  {
    if s != [] {
      assert Lower(s)[0] == LowerChar(s[0]);
    }
  }

  /** A stripped line that is not empty yields at least one token. */
  lemma StrippedSplitNonEmpty(line: string)
    requires Strip(line) != []
    ensures Split(Strip(line)) != []
  {
  }

  // ---------------------------------------------------------------------------
  // What the operations mean

  /** Words separated by single spaces. */
  function JoinWords(ws: seq<string>): string
  {
    if ws == [] then [] else if |ws| == 1 then ws[0] else ws[0] + " " + JoinWords(ws[1..])
  }

  /** A word stops at the first white space after it, or at the end. */
  lemma {:induction false} WordLengthOfWord(w: string, rest: string)
    requires IsWord(w) && (rest == [] || IsSpace(rest[0]))
    ensures WordLength(w + rest) == |w|
    decreases |w|
  {
    if |w| > 1 {
      assert (w + rest)[1..] == w[1..] + rest;
      WordLengthOfWord(w[1..], rest);
    } else {
      assert (w + rest)[1..] == rest;
    }
  }

  /** A leading space does not change the words. */
  lemma SplitLeadingSpace(t: string)
    ensures Split(" " + t) == Split(t)
  {
    var s := " " + t;
    var n := LeadingSpaces(t);
    assert s[1..] == t;
    assert LeadingSpaces(s) == 1 + n;
    assert s[1 + n..] == t[n..];
  }

  /** A word followed by white space or by nothing splits off as the first part. */
  lemma SplitWordThen(w: string, rest: string)
    requires IsWord(w) && (rest == [] || IsSpace(rest[0]))
    ensures Split(w + rest) == [w] + Split(rest)
  {
    var s := w + rest;
    assert s[0] == w[0];
    assert LeadingSpaces(s) == 0;
    assert s[0..] == s;
    WordLengthOfWord(w, rest);
    assert s[..|w|] == w && s[|w|..] == rest;
  }

  /** str.split() gives back the words that were joined: every word, in order. */
  lemma {:induction false} SplitJoinWords(ws: seq<string>)
    requires forall j :: 0 <= j < |ws| ==> IsWord(ws[j])
    ensures Split(JoinWords(ws)) == ws
    decreases |ws|
  {
    if |ws| == 1 {
      SplitWordThen(ws[0], []);
      assert ws[0] + [] == ws[0];
    } else if |ws| > 1 {
      var tail := JoinWords(ws[1..]);
      assert JoinWords(ws) == ws[0] + (" " + tail);
      SplitWordThen(ws[0], " " + tail);
      SplitLeadingSpace(tail);
      SplitJoinWords(ws[1..]);
      HeadTail(ws);
    }
  }

  lemma HeadTail<T>(s: seq<T>)
    requires s != []
    ensures s == [s[0]] + s[1..]
  {
  }

  /** c and d are the same character up to ASCII case. */
  predicate SameIgnoringCase(c: char, d: char)
  {
    c == d || ('A' <= c <= 'Z' && d as int == c as int + 32) || ('A' <= d <= 'Z' && c as int == d as int + 32)
  }

  /** Two characters lower to the same one exactly when they agree up to ASCII case. */
  lemma LowerCharIgnoresCase(c: char, d: char)
    ensures LowerChar(c) == LowerChar(d) <==> SameIgnoringCase(c, d)
  {
  }

  /** Lowering works character by character. */
  lemma {:induction false} LowerAt(s: string)
    ensures forall k :: 0 <= k < |s| ==> Lower(s)[k] == LowerChar(s[k])
  {
    if s != [] {
      LowerAt(s[1..]);
      assert forall k :: 1 <= k < |s| ==> Lower(s)[k] == Lower(s[1..])[k - 1];
    }
  }

  /** Two strings lower to the same string exactly when they agree up to ASCII case. */
  lemma LowerIgnoresCase(s: string, t: string)
    ensures Lower(s) == Lower(t) <==> |s| == |t| && forall k :: 0 <= k < |s| ==> SameIgnoringCase(s[k], t[k])
  {
    if |s| == |t| {
      LowerPointwise(s, t);
      SameLowerIff(Lower(s), Lower(t));
    }
  }

  lemma LowerPointwise(s: string, t: string)
    requires |s| == |t|
    ensures forall k :: 0 <= k < |s| ==> (Lower(s)[k] == Lower(t)[k] <==> SameIgnoringCase(s[k], t[k]))
  {
    LowerAt(s);
    LowerAt(t);
    forall k | 0 <= k < |s|
      ensures Lower(s)[k] == Lower(t)[k] <==> SameIgnoringCase(s[k], t[k])
    {
      LowerCharIgnoresCase(s[k], t[k]);
    }
  }

  /** Sequences of the same length are equal exactly when they agree at every index. */
  lemma SameLowerIff(a: string, b: string)
    requires |a| == |b|
    ensures a == b <==> forall k :: 0 <= k < |a| ==> a[k] == b[k]
  {
  }

  /** needle occurs in hay starting at position i. */
  predicate OccursAt(hay: string, needle: string, i: nat)
  {
    i + |needle| <= |hay| && hay[i..i + |needle|] == needle
  }

  /** `needle in hay` holds exactly when needle occurs somewhere in hay. */
  lemma {:induction false} ContainsIff(hay: string, needle: string)
    ensures Contains(hay, needle) <==> exists i: nat :: OccursAt(hay, needle, i)
    decreases |hay|
  {
    assert OccursAt(hay, needle, 0) <==> needle <= hay;
    if hay != [] && !(needle <= hay) {
      ContainsIff(hay[1..], needle);
      forall i: nat
        ensures OccursAt(hay, needle, i + 1) <==> OccursAt(hay[1..], needle, i)
      {
        if i + 1 + |needle| <= |hay| {
          assert hay[1..][i..i + |needle|] == hay[i + 1..i + 1 + |needle|];
        }
      }
      if i: nat :| OccursAt(hay, needle, i) {
        assert OccursAt(hay[1..], needle, i - 1);
      }
    }
  }

  function DigitChar(d: nat): (c: char)
    requires d < 10
    ensures IsDigit(c) && c as int - '0' as int == d
  {
    ('0' as int + d) as char
  }

  /** The decimal digits of n, most significant first. */
  function Digits(n: nat): (d: string)
    ensures d != [] && AllDigits(d)
  {
    if n < 10 then [DigitChar(n)] else Digits(n / 10) + [DigitChar(n % 10)]
  }

  /** str(n): the decimal text of an integer, with '-' before a negative one. */
  function Decimal(n: int): string
  {
    if n < 0 then "-" + Digits(-n) else Digits(n)
  }

  lemma {:induction false} DigitsValueOfDigits(n: nat)
    ensures DigitsValue(Digits(n)) == n
  {
    if n >= 10 {
      DigitsValueOfDigits(n / 10);
      var d := Digits(n);
      assert d[..|d| - 1] == Digits(n / 10);
    }
  }

  /** int() reads back the decimal text of every integer. */
  lemma ParseIntDecimal(n: int)
    ensures IsIntToken(Decimal(n)) && ParseInt(Decimal(n)) == n
  {
    var m: nat := if n < 0 then -n else n;
    var d := Digits(m);
    DigitsValueOfDigits(m);
    assert IsDigit(d[0]);
    if n < 0 {
      assert Unsigned("-" + d) == d;
    } else {
      assert Unsigned(d) == d;
    }
  }

  /** The decimal texts of a list of integers. */
  function DecimalTokens(vals: seq<int>): (ts: seq<string>)
    ensures |ts| == |vals| && forall j :: 0 <= j < |vals| ==> ts[j] == Decimal(vals[j])
  {
    seq(|vals|, j requires 0 <= j < |vals| => Decimal(vals[j]))
  }

  /** The decimal text of an integer is a single token. */
  lemma DecimalIsWord(n: int)
    ensures IsWord(Decimal(n))
  {
    var d := Digits(if n < 0 then -n else n);
    if n < 0 {
      assert forall k :: 1 <= k < |"-" + d| ==> ("-" + d)[k] == d[k - 1];
    }
  }

  /** int() reads back every decimal text. */
  lemma ParseIntsDecimal(vals: seq<int>)
    ensures forall j :: 0 <= j < |vals| ==> IsIntToken(DecimalTokens(vals)[j])
    ensures ParseInts(DecimalTokens(vals)) == vals
  {
    forall j | 0 <= j < |vals|
      ensures IsIntToken(DecimalTokens(vals)[j]) && ParseInt(DecimalTokens(vals)[j]) == vals[j]
    {
      ParseIntDecimal(vals[j]);
    }
  }

  /** str.strip(c) leaves a string alone when neither end is c. */
  lemma StripCharUnchanged(s: string, c: char)
    requires s != [] && s[0] != c && s[|s| - 1] != c
    ensures StripChar(s, c) == s
  {
    assert s[0..] == s && s[..|s|] == s;
  }
}
