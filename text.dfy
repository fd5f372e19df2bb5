/** The pieces of Rust's string library the sequencer depends on, written
    out: decimal digits, the decimal rendering of an unsigned integer,
    `starts_with`, `str::lines` and `str::words`. */
module Text {

  // ---------------------------------------------------------------------------
  // Digits and decimal numbers
  // ---------------------------------------------------------------------------

  /** A decimal digit. Only the ASCII digits are modelled. */
  predicate IsDigit(c: char) {
    '0' <= c <= '9'
  }

  function DigitValue(c: char): (v: nat)
    requires IsDigit(c)
    ensures v < 10
  {
    c as int - '0' as int
  }

  function DigitChar(d: nat): (c: char)
    requires d < 10
    ensures IsDigit(c) && DigitValue(c) == d
  {
    (d + '0' as int) as char
  }

  predicate AllDigits(s: string) {
    forall i :: 0 <= i < |s| ==> IsDigit(s[i])
  }

  /** The decimal rendering of an unsigned integer, as `format!("{}", n)`
      and `n.to_string()` produce it: no sign, no leading zero. */
  function NatToString(n: nat): (s: string)
    ensures |s| > 0 && AllDigits(s)
    ensures |s| > 1 ==> s[0] != '0'
  {
    if n < 10 then [DigitChar(n)] else NatToString(n / 10) + [DigitChar(n % 10)]
  }

  /** The value a string of decimal digits spells. */
  function ParseNat(s: string): nat
    requires AllDigits(s)
  {
    if s == [] then 0 else ParseNat(s[..|s| - 1]) * 10 + DigitValue(s[|s| - 1])
  }

  /** Reading back the rendering of `n` gives `n`; so the rendering is
      injective and two different keys never share a decimal string. */
  lemma {:induction false} ParseNatToString(n: nat)
    ensures ParseNat(NatToString(n)) == n
  {
    var s := NatToString(n);
    if n >= 10 {
      assert s[..|s| - 1] == NatToString(n / 10);
      ParseNatToString(n / 10);
    }
  }

  lemma NatToStringInjective(m: nat, n: nat)
    ensures NatToString(m) == NatToString(n) <==> m == n
  {
    ParseNatToString(m);
    ParseNatToString(n);
  }

  // ---------------------------------------------------------------------------
  // Prefixes
  // ---------------------------------------------------------------------------

  /** Rust's `str::starts_with` with a string pattern. */
  predicate StartsWith(s: string, prefix: string) {
    |prefix| <= |s| && s[..|prefix|] == prefix
  }

  // ---------------------------------------------------------------------------
  // str::lines: the pieces between '\n' characters; a final empty piece
  // after a trailing '\n' is not a line
  // ---------------------------------------------------------------------------

  /** A line holds no '\n'. */
  predicate IsLine(l: string) {
    forall j :: 0 <= j < |l| ==> l[j] != '\n'
  }

  /** The length of the first line of `s`: the index of its first '\n', or
      `|s|` when there is none. */
  function LineLength(s: string): (n: nat)
    ensures n <= |s|
    ensures n < |s| ==> s[n] == '\n'
  {
    if s == [] || s[0] == '\n' then 0 else 1 + LineLength(s[1..])
  }

  /** No '\n' comes before the one `LineLength` stops at. */
  lemma {:induction false} LineLengthIsLine(s: string)
    ensures IsLine(s[..LineLength(s)])
  {
    if s != [] && s[0] != '\n' {
      LineLengthIsLine(s[1..]);
      assert s[..LineLength(s)] == [s[0]] + s[1..][..LineLength(s[1..])];
    }
  }

  /** `LineLength` is the index of the first '\n': a prefix free of '\n' that
      ends at a '\n' or at the end of `s` has that length. */
  lemma {:induction false} LineLengthOfLine(s: string, k: nat)
    requires k <= |s| && IsLine(s[..k])
    requires k < |s| ==> s[k] == '\n'
    ensures LineLength(s) == k
  {
    if k > 0 {
      assert s[..k][0] == s[0];
      assert s[1..][..k - 1] == s[..k][1..];
      LineLengthOfLine(s[1..], k - 1);
    }
  }

  function Lines(s: string): seq<string>
    decreases |s|
  {
    if s == [] then []
    else
      var n := LineLength(s);
      if n == |s| then [s] else [s[..n]] + Lines(s[n + 1..])
  }

  /** No line `Lines` produces holds a '\n'. */
  lemma {:induction false} LinesAreLines(s: string)
    ensures forall i :: 0 <= i < |Lines(s)| ==> IsLine(Lines(s)[i])
    decreases |s|
  {
    if s != [] {
      var n := LineLength(s);
      LineLengthIsLine(s);
      if n < |s| {
        LinesAreLines(s[n + 1..]);
        assert Lines(s) == [s[..n]] + Lines(s[n + 1..]);
      }
    }
  }

  /** Every line followed by a '\n', as the rewritten configuration is laid out. */
  function JoinLines(ls: seq<string>): string {
    if ls == [] then [] else ls[0] + "\n" + JoinLines(ls[1..])
  }

  lemma {:induction false} JoinLinesAppend(ls: seq<string>, l: string)
    ensures JoinLines(ls + [l]) == JoinLines(ls) + l + "\n"
  {
    if ls != [] {
      assert (ls + [l])[1..] == ls[1..] + [l];
      JoinLinesAppend(ls[1..], l);
    }
  }

  /** Splitting a '\n'-terminated join gives back the lines that were joined. */
  lemma {:induction false} LinesOfJoinLines(ls: seq<string>)
    requires forall i :: 0 <= i < |ls| ==> IsLine(ls[i])
    ensures Lines(JoinLines(ls)) == ls
  {
    if ls != [] {
      var s := JoinLines(ls);
      var rest := JoinLines(ls[1..]);
      var k := |ls[0]|;
      assert s == ls[0] + "\n" + rest;
      assert s[..k] == ls[0];
      LineLengthOfLine(s, k);
      assert s[k + 1..] == rest;
      LinesOfJoinLines(ls[1..]);
    }
  }

  lemma JoinLinesCons(l: string, ls: seq<string>)
    ensures JoinLines([l] + ls) == l + "\n" + JoinLines(ls)
  {
    assert ([l] + ls)[1..] == ls;
  }

  /** A string with a '\n' splits into its first line and the lines after that '\n'. */
  lemma LinesSplit(s: string, n: nat)
    requires n == LineLength(s) && n < |s|
    ensures Lines(s) == [s[..n]] + Lines(s[n + 1..])
  {
  }

  lemma SplitAtNewline(s: string, n: nat)
    requires n < |s| && s[n] == '\n'
    ensures s == s[..n] + "\n" + s[n + 1..]
  {
    assert s == s[..n] + [s[n]] + s[n + 1..];
  }

  /** Joining the lines of `s` gives `s` back, with a '\n' added when the
      last line had none. */
  lemma {:induction false} JoinLinesOfLines(s: string)
    ensures JoinLines(Lines(s)) == if s == [] || s[|s| - 1] == '\n' then s else s + "\n"
    decreases |s|
  {
    if s != [] {
      var n := LineLength(s);
      if n == |s| {
        assert Lines(s) == [s];
        JoinLinesCons(s, []);
        LineLengthIsLine(s);
        assert s[..n] == s;
      } else {
        var rest := s[n + 1..];
        LinesSplit(s, n);
        SplitAtNewline(s, n);
        JoinLinesCons(s[..n], Lines(rest));
        JoinLinesOfLines(rest);
        if rest == [] {
          assert s[|s| - 1] == '\n';
        } else {
          assert s[|s| - 1] == rest[|rest| - 1];
        }
      }
    }
  }

  // ---------------------------------------------------------------------------
  // str::words: the maximal runs of non-whitespace characters
  // ---------------------------------------------------------------------------

  /** Unicode's White_Space property, which Rust's `char::is_whitespace` tests. */
  predicate IsWhitespace(c: char) {
    ('\U{0009}' <= c <= '\U{000D}') || c == ' ' || c == '\U{0085}' || c == '\U{00A0}' ||
    c == '\U{1680}' || ('\U{2000}' <= c <= '\U{200A}') || c == '\U{2028}' || c == '\U{2029}' ||
    c == '\U{202F}' || c == '\U{205F}' || c == '\U{3000}'
  }

  predicate IsWord(w: string) {
    w != [] && forall i :: 0 <= i < |w| ==> !IsWhitespace(w[i])
  }

  /** The length of the longest whitespace-free prefix of `s`. */
  function WordLength(s: string): (n: nat)
    ensures n <= |s|
    ensures forall i :: 0 <= i < n ==> !IsWhitespace(s[i])
    ensures n < |s| ==> IsWhitespace(s[n])
  {
    if s == [] || IsWhitespace(s[0]) then 0 else 1 + WordLength(s[1..])
  }

  function Words(s: string): seq<string>
    decreases |s|
  {
    if s == [] then []
    else if IsWhitespace(s[0]) then Words(s[1..])
    else
      var n := WordLength(s);
      [s[..n]] + Words(s[n..])
  }

  /** Every word `Words` produces is non-empty and free of whitespace. */
  lemma {:induction false} WordsAreWords(s: string)
    ensures forall i :: 0 <= i < |Words(s)| ==> IsWord(Words(s)[i])
    decreases |s|
  {
    if s != [] {
      if IsWhitespace(s[0]) {
        WordsAreWords(s[1..]);
      } else {
        var n := WordLength(s);
        WordsAreWords(s[n..]);
        assert Words(s) == [s[..n]] + Words(s[n..]);
      }
    }
  }

  /** `WordLength` is the index of the first whitespace: a whitespace-free
      prefix that ends at whitespace or at the end of `s` has that length. */
  lemma {:induction false} WordLengthIs(s: string, k: nat)
    requires k <= |s|
    requires forall i :: 0 <= i < k ==> !IsWhitespace(s[i])
    requires k < |s| ==> IsWhitespace(s[k])
    ensures WordLength(s) == k
  {
    if k > 0 {
      WordLengthIs(s[1..], k - 1);
    }
  }

  /** A single word splits into itself. */
  lemma WordsOfWord(w: string)
    requires IsWord(w)
    ensures Words(w) == [w]
  {
    WordLengthIs(w, |w|);
    assert w[..|w|] == w;
    assert w[|w|..] == [];
  }

  /** A whitespace character separates: whatever surrounds it, the words of
      `a + [c] + b` are the words of `a` followed by the words of `b`. With
      `Words("") == []` and `WordsOfWord`, this fixes `Words` on every input,
      runs of whitespace and leading or trailing whitespace included. */
  lemma WordsSplitAtWhitespace(a: string, c: char, b: string)
    requires IsWhitespace(c)
    ensures Words(a + [c] + b) == Words(a) + Words(b)
  {
    var t := [c] + b;
    assert a + [c] + b == a + t;
    assert t[1..] == b;
    WordsBeforeWhitespace(a, t);
  }

  lemma {:induction false} WordsBeforeWhitespace(a: string, t: string)
    requires t != [] && IsWhitespace(t[0])
    ensures Words(a + t) == Words(a) + Words(t[1..])
    decreases |a|
  {
    if a == [] {
      assert a + t == t;
    } else if IsWhitespace(a[0]) {
      WordsDropWhitespace(a, t);
      WordsBeforeWhitespace(a[1..], t);
    } else if WordLength(a) < |a| {
      var n := WordLength(a);
      WordsFirstWord(a, t);
      WordsBeforeWhitespace(a[n..], t);
      assert [a[..n]] + (Words(a[n..]) + Words(t[1..])) == [a[..n]] + Words(a[n..]) + Words(t[1..]);
    } else {
      WordsOfWord(a);
      WordThenWhitespace(a, t);
    }
  }

  /** Leading whitespace yields no word. */
  lemma WordsDropWhitespace(a: string, t: string)
    requires a != [] && IsWhitespace(a[0])
    ensures Words(a + t) == Words(a[1..] + t) && Words(a) == Words(a[1..])
  {
    assert (a + t)[0] == a[0];
    assert (a + t)[1..] == a[1..] + t;
  }

  /** A first word that ends inside `a` is the first word of `a + t` too. */
  lemma WordsFirstWord(a: string, t: string)
    requires a != [] && !IsWhitespace(a[0]) && WordLength(a) < |a|
    ensures var n := WordLength(a);
            Words(a + t) == [a[..n]] + Words(a[n..] + t) && Words(a) == [a[..n]] + Words(a[n..])
  {
    var s, n := a + t, WordLength(a);
    assert s[0] == a[0];
    assert s[..|a|] == a;
    WordLengthIs(s, n);
    assert s[..n] == a[..n];
    assert s[n..] == a[n..] + t;
  }

  /** A word followed by whitespace: the word, then the words after the whitespace. */
  lemma WordThenWhitespace(w: string, t: string)
    requires IsWord(w) && t != [] && IsWhitespace(t[0])
    ensures Words(w + t) == [w] + Words(t[1..])
  {
    var s := w + t;
    assert s[0] == w[0];
    assert s[..|w|] == w;
    assert s[|w|] == t[0];
    WordLengthIs(s, |w|);
    assert s[|w|..] == t;
  }

  /** The words joined by single spaces. */
  function Unwords(ws: seq<string>): string {
    if ws == [] then []
    else if |ws| == 1 then ws[0]
    else ws[0] + " " + Unwords(ws[1..])
  }

  /** Splitting words joined by spaces gives back the words. */
  lemma {:induction false} WordsOfUnwords(ws: seq<string>)
    requires forall i :: 0 <= i < |ws| ==> IsWord(ws[i])
    ensures Words(Unwords(ws)) == ws
  {
    if ws != [] {
      var w := ws[0];
      var s := Unwords(ws);
      assert s[..|w|] == w;
      var n := WordLength(s);
      if |ws| == 1 {
        assert s == w;
        assert s[n..] == [];
      } else {
        var rest := Unwords(ws[1..]);
        assert s == w + " " + rest;
        assert s[|w|] == ' ';
        assert n == |w|;
        assert s[n..] == " " + rest;
        assert (" " + rest)[1..] == rest;
        WordsOfUnwords(ws[1..]);
      }
    }
  }
}
