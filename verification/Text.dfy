/** Strings as the program handles them: trimming, lower-casing, decimal printing,
    and the facts that make a printed key readable back. */
module Text {

  // ----- Character classes -----

  /** Go's `unicode.IsSpace`, which `strings.TrimSpace` strips. */
  predicate IsGoSpace(c: char) {
    c == ' ' || '\t' <= c <= '\r' || c == '\U{0085}' || c == '\U{00A0}' || c == '\U{1680}' ||
    '\U{2000}' <= c <= '\U{200A}' || c == '\U{2028}' || c == '\U{2029}' || c == '\U{202F}' ||
    c == '\U{205F}' || c == '\U{3000}'
  }

  /** JavaScript's white space and line terminators, which `String.prototype.trim` strips. */
  predicate IsJsSpace(c: char) {
    c == ' ' || '\t' <= c <= '\r' || c == '\U{00A0}' || c == '\U{1680}' ||
    '\U{2000}' <= c <= '\U{200A}' || c == '\U{2028}' || c == '\U{2029}' || c == '\U{202F}' ||
    c == '\U{205F}' || c == '\U{3000}' || c == '\U{FEFF}'
  }

  predicate IsDigit(c: char) { '0' <= c <= '9' }

  predicate IsLetter(c: char) { 'a' <= c <= 'z' || 'A' <= c <= 'Z' }

  predicate IsHex(c: char) { IsDigit(c) || 'a' <= c <= 'f' || 'A' <= c <= 'F' }

  predicate All(s: string, p: char -> bool) { forall i :: 0 <= i < |s| ==> p(s[i]) }

  // ----- Trimming -----

  function TrimLeft(s: string, space: char -> bool): (r: string)
    ensures |r| <= |s| && r == s[|s| - |r|..]
    ensures r == [] || !space(r[0])
  {
    if s == [] || !space(s[0]) then s else TrimLeft(s[1..], space)
  }

  function TrimRight(s: string, space: char -> bool): (r: string)
    ensures |r| <= |s| && r == s[..|r|]
    ensures r == [] || !space(r[|r| - 1])
  {
    if s == [] || !space(s[|s| - 1]) then s else TrimRight(s[..|s| - 1], space)
  }

  predicate Trimmed(s: string, space: char -> bool) {
    s == [] || (!space(s[0]) && !space(s[|s| - 1]))
  }

  /** The result starts and ends with a non-space, and is the input itself when nothing
      had to be cut. */
  function Trim(s: string, space: char -> bool): (r: string)
    ensures Trimmed(r, space)
    ensures Trimmed(s, space) ==> r == s
  {
    TrimRight(TrimLeft(s, space), space)
  }

  function TrimGo(s: string): string { Trim(s, IsGoSpace) }

  function TrimJs(s: string): string { Trim(s, IsJsSpace) }

  lemma {:induction false} TrimLeftCuts(s: string, space: char -> bool)
    ensures All(s[..|s| - |TrimLeft(s, space)|], space)
  {
    if s != [] && space(s[0]) {
      TrimLeftCuts(s[1..], space);
      var n, m := |s| - |TrimLeft(s, space)|, |s[1..]| - |TrimLeft(s[1..], space)|;
      assert s[..n] == [s[0]] + s[1..][..m];
    }
  }

  lemma {:induction false} TrimRightCuts(s: string, space: char -> bool)
    ensures All(s[|TrimRight(s, space)|..], space)
  {
    if s != [] && space(s[|s| - 1]) {
      var n := |s| - 1;
      TrimRightCuts(s[..n], space);
      assert s[|TrimRight(s, space)|..] == s[..n][|TrimRight(s[..n], space)|..] + [s[n]];
    }
  }

  /** Trimming cuts white space off both ends and nothing else. */
  lemma TrimCuts(s: string, space: char -> bool) returns (left: string, right: string)
    ensures s == left + Trim(s, space) + right && All(left, space) && All(right, space)
  {
    hide TrimLeft, TrimRight, All;
    var t := TrimLeft(s, space);
    TrimLeftCuts(s, space);
    TrimRightCuts(t, space);
    var core := Trim(s, space);
    left, right := s[..|s| - |t|], t[|core|..];
    Halves(s, |s| - |t|);
    Halves(t, |core|);
    assert left + core + right == left + (core + right);
  }

  lemma Halves(s: string, n: nat)
    requires n <= |s|
    ensures s == s[..n] + s[n..]
  {
  }

  lemma {:induction false} TrimLeftSkips(left: string, s: string, space: char -> bool)
    requires All(left, space)
    ensures TrimLeft(left + s, space) == TrimLeft(s, space)
  {
    if left != "" {
      assert (left + s)[1..] == left[1..] + s;
      TrimLeftSkips(left[1..], s, space);
    } else {
      assert left + s == s;
    }
  }

  lemma {:induction false} TrimRightSkips(s: string, right: string, space: char -> bool)
    requires All(right, space)
    ensures TrimRight(s + right, space) == TrimRight(s, space)
  {
    if right != "" {
      var n := |right| - 1;
      assert (s + right)[..|s + right| - 1] == s + right[..n];
      TrimRightSkips(s, right[..n], space);
    } else {
      assert s + right == s;
    }
  }

  /** White space around a trimmed text does not matter. */
  lemma TrimAround(left: string, s: string, right: string, space: char -> bool)
    requires s != "" && Trimmed(s, space) && All(left, space) && All(right, space)
    ensures Trim(left + s + right, space) == s
  {
    hide TrimLeft, TrimRight;
    assert left + s + right == left + (s + right);
    TrimLeftSkips(left, s + right, space);
    StartsVisible(s + right, space);
    TrimRightSkips(s, right, space);
    EndsVisible(s, space);
  }

  lemma StartsVisible(s: string, space: char -> bool)
    requires s != "" && !space(s[0])
    ensures TrimLeft(s, space) == s
  {
  }

  lemma EndsVisible(s: string, space: char -> bool)
    requires s != "" && !space(s[|s| - 1])
    ensures TrimRight(s, space) == s
  {
  }

  /** A text of white space only trims to nothing. */
  lemma TrimBlank(s: string, space: char -> bool)
    requires All(s, space)
    ensures Trim(s, space) == ""
  {
    TrimLeftSkips(s, "", space);
    assert s + "" == s;
  }

  // ----- Lower case -----

  /** ASCII letters, and the two other characters whose lower case is an ASCII letter
      (the Kelvin sign and the dotted capital I). Every other character has a lower case
      outside ASCII and is left alone. */
  function LowerChar(c: char): char {
    if 'A' <= c <= 'Z' then ((c as int) + 32) as char
    else if c == '\U{212A}' then 'k'
    else if c == '\U{0130}' then 'i'
    else c
  }

  const CAPITALS := "ABCDEFGHIJKLMNOPQRSTUVWXYZ"
  const SMALL := "abcdefghijklmnopqrstuvwxyz"

  /** A capital becomes the small letter at its place in the alphabet; no other ASCII character
      changes. */
  lemma CapitalsBecomeSmall(c: char)
    ensures forall i :: 0 <= i < |CAPITALS| ==> LowerChar(CAPITALS[i]) == SMALL[i]
    ensures c < '\U{0080}' && c !in CAPITALS ==> LowerChar(c) == c
  {
    assert 'A' <= c <= 'Z' ==> CAPITALS[c as int - 65] == c;
  }

  function Lower(s: string): (r: string)
    ensures |r| == |s|
    ensures forall i :: 0 <= i < |s| ==> r[i] == LowerChar(s[i])
  {
    seq(|s|, i requires 0 <= i < |s| => LowerChar(s[i]))
  }

  lemma LowerIdempotent(s: string)
    ensures Lower(Lower(s)) == Lower(s)
  {
    assert forall i :: 0 <= i < |s| ==> Lower(Lower(s))[i] == Lower(s)[i];
  }

  /** JavaScript's `toLowerCase`, on the same characters; the dotted capital I becomes an
      i and a combining dot. */
  function LowerJs(s: string): string {
    if s == "" then ""
    else
      var c := s[|s| - 1];
      LowerJs(s[..|s| - 1]) + (if c == '\U{0130}' then ['i', '\U{0307}'] else [LowerChar(c)])
  }

  // ----- Searching and splitting -----

  predicate PartAt(s: string, part: string, i: int) {
    0 <= i <= |s| - |part| && s[i..i + |part|] == part
  }

  predicate Contains(s: string, part: string) { exists i :: 0 <= i <= |s| && PartAt(s, part, i) }

  /** The position of the first `c`, or the length when there is none. */
  function Find(s: string, c: char): (i: nat)
    ensures i <= |s|
    ensures c !in s[..i]
    ensures i < |s| ==> s[i] == c
  {
    if s == [] || s[0] == c then 0 else
      assert forall k :: 0 < k <= |s| ==> s[..k] == [s[0]] + s[1..][..k - 1];
      1 + Find(s[1..], c)
  }

  lemma FindCut(a: string, b: string, sep: char)
    requires sep !in a
    ensures Find(a + [sep] + b, sep) == |a|
  {
    var whole := a + [sep] + b;
    var i := Find(whole, sep);
    assert whole[|a|] == sep;
    assert forall k :: 0 <= k < |a| ==> whole[k] == a[k];
    assert i <= |a| by {
      assert forall k :: 0 <= k < i ==> whole[..i][k] == whole[k];
    }
  }

  /** Lower-casing makes no character other than a letter and the combining dot. */
  lemma {:induction false} LowerAddsNo(s: string, c: char)
    requires c !in s && c != '\U{0307}' && !('a' <= c <= 'z')
    ensures c !in LowerJs(s)
  {
    if s != "" {
      LowerAddsNo(s[..|s| - 1], c);
    }
  }

  /** A string cut at a separator that its first half does not contain can be put
      together in one way only. */
  lemma CutUnique(a: string, b: string, c: string, d: string, sep: char)
    requires sep !in a && sep !in c
    requires a + [sep] + b == c + [sep] + d
    ensures a == c && b == d
  {
    var whole := a + [sep] + b;
    FindCut(a, b, sep);
    FindCut(c, d, sep);
    assert a == whole[..|a|] && c == whole[..|a|];
    assert b == whole[|a| + 1..] && d == whole[|a| + 1..];
  }

  lemma SecondHalf(c: string, d: string, sep: char, i: int)
    ensures |c| < i <= |c| + |d| ==> (c + [sep] + d)[i] in d
  {
    assert |c| < i <= |c| + |d| ==> (c + [sep] + d)[i] == d[i - |c| - 1];
  }

  lemma CutNotAfter(a: string, b: string, c: string, d: string, sep: char)
    requires sep !in d && a + [sep] + b == c + [sep] + d
    ensures |a| <= |c|
  {
    assert (a + [sep] + b)[|a|] == sep;
    assert |a + [sep] + b| == |c + [sep] + d|;
    SecondHalf(c, d, sep, |a|);
  }

  /** Nor is there a second way when its second half does not contain the separator. */
  lemma CutLast(a: string, b: string, c: string, d: string, sep: char)
    requires sep !in b && sep !in d
    requires a + [sep] + b == c + [sep] + d
    ensures a == c && b == d
  {
    var whole := a + [sep] + b;
    CutNotAfter(a, b, c, d, sep);
    CutNotAfter(c, d, a, b, sep);
    assert a == whole[..|a|] && c == whole[..|a|] && b == whole[|a| + 1..] && d == whole[|a| + 1..];
  }

  // ----- Words -----

  /** Every run of characters satisfying `p` becomes one space. */
  function Squeeze(s: string, p: char -> bool): string {
    if s == "" then ""
    else
      var c := s[|s| - 1];
      var before := Squeeze(s[..|s| - 1], p);
      if !p(c) then before + [c]
      else if |s| > 1 && p(s[|s| - 2]) then before
      else before + " "
  }

  /** The maximal runs of characters that are no separators. */
  function Tokens(s: string, sep: char -> bool): (r: seq<string>)
    ensures s != "" && !sep(s[|s| - 1]) ==> r != []
  {
    if s == "" then []
    else
      var n := |s| - 1;
      var before := Tokens(s[..n], sep);
      if sep(s[n]) then before
      else if n > 0 && !sep(s[n - 1]) then before[..|before| - 1] + [before[|before| - 1] + [s[n]]]
      else before + [[s[n]]]
  }

  lemma {:induction false} TokensAreWords(s: string, sep: char -> bool)
    ensures forall i :: 0 <= i < |Tokens(s, sep)| ==> Tokens(s, sep)[i] != "" && forall c :: c in Tokens(s, sep)[i] ==> !sep(c)
  {
    if s != "" {
      TokensAreWords(s[..|s| - 1], sep);
    }
  }

  /** The words with one space between them. */
  function Spaced(words: seq<string>): string { if words == [] then "" else Join(words, ' ') }

  lemma SpacedMore(words: seq<string>, c: char)
    ensures words == [] ==> Spaced(words + [[c]]) == [c]
    ensures words != [] ==> Spaced(words + [[c]]) == Spaced(words) + " " + [c]
  {
    if words != [] {
      JoinLast(words, [c], ' ');
    }
  }

  lemma SpacedLonger(words: seq<string>, c: char)
    requires words != []
    ensures var n := |words| - 1; Spaced(words[..n] + [words[n] + [c]]) == Spaced(words) + [c]
  {
    var n := |words| - 1;
    assert words == words[..n] + [words[n]];
    if n > 0 {
      JoinLast(words[..n], words[n] + [c], ' ');
      JoinLast(words[..n], words[n], ' ');
    }
  }

  function Edge(blank: bool): string { if blank then " " else "" }

  function Framed(before: bool, text: string, after: bool): string { Edge(before) + text + Edge(after) }

  lemma FramedMore(before: bool, text: string, c: char)
    ensures Framed(before, text, false) + " " == Framed(before, text, true)
    ensures Framed(before, text, true) + [c] == Framed(before, text + " " + [c], false)
    ensures Framed(before, text, false) + [c] == Framed(before, text + [c], false)
    ensures Edge(before) + [c] == Framed(before, [c], false)
  {
  }

  /** A squeezed text is its words, with a space at each end that had a separator. */
  lemma {:induction false} SqueezeShape(s: string, sep: char -> bool)
    ensures var words := Tokens(s, sep);
            && (words == [] ==> Squeeze(s, sep) == Edge(s != "") && All(s, sep))
            && (words != [] ==> s != "" && Squeeze(s, sep) == Framed(sep(s[0]), Spaced(words), sep(s[|s| - 1])))
  {
    hide Spaced, Framed;
    if s != "" {
      var n := |s| - 1;
      var init := s[..n];
      SqueezeShape(init, sep);
      var words := Tokens(init, sep);
      SpacedMore(words, s[n]);
      FramedMore(sep(s[0]), Spaced(words), s[n]);
      if words != [] {
        SpacedLonger(words, s[n]);
      }
      if n > 0 {
        assert init[n - 1] == s[n - 1] && init[0] == s[0];
      }
    }
  }

  lemma {:induction false} SpacedEnds(words: seq<string>)
    requires words != [] && forall i :: 0 <= i < |words| ==> words[i] != ""
    ensures var t := Spaced(words);
            t != "" && t[0] == words[0][0] && var w := words[|words| - 1]; t[|t| - 1] == w[|w| - 1]
  {
    if |words| > 1 {
      SpacedEnds(words[1..]);
    }
  }

  /** Squeezed and trimmed, a text is its words with one space between them, whenever white
      space separates. */
  lemma SqueezedAndTrimmed(s: string, sep: char -> bool)
    requires forall c :: IsJsSpace(c) ==> sep(c)
    ensures TrimJs(Squeeze(s, sep)) == Spaced(Tokens(s, sep))
  {
    hide Tokens, Squeeze, TrimLeft, TrimRight, Spaced, Trim;
    SqueezeShape(s, sep);
    var words := Tokens(s, sep);
    if words == [] {
      TrimBlank(Squeeze(s, sep), IsJsSpace);
      NoWords();
    } else {
      TokensAreWords(s, sep);
      SpacedEnds(words);
      var w := words[|words| - 1];
      assert !sep(words[0][0]) && !sep(w[|w| - 1]);
      TrimAround(Edge(sep(s[0])), Spaced(words), Edge(sep(s[|s| - 1])), IsJsSpace);
    }
  }

  lemma NoWords()
    ensures Spaced([]) == ""
  {
  }

  /** The words can be read back. */
  lemma SpacedInjective(xs: seq<string>, ys: seq<string>)
    requires forall i :: 0 <= i < |xs| ==> xs[i] != "" && ' ' !in xs[i]
    requires forall i :: 0 <= i < |ys| ==> ys[i] != "" && ' ' !in ys[i]
    ensures Spaced(xs) == Spaced(ys) <==> xs == ys
  {
    hide Join;
    if xs != [] {
      SpacedEnds(xs);
    }
    if ys != [] {
      SpacedEnds(ys);
    }
    if xs != [] && ys != [] && Spaced(xs) == Spaced(ys) {
      JoinInjective(xs, ys, ' ');
    }
  }

  lemma SqueezeLast(s: string, p: char -> bool)
    requires s != ""
    ensures Squeeze(s, p) != ""
    ensures var t := Squeeze(s, p); t[|t| - 1] == if p(s[|s| - 1]) then ' ' else s[|s| - 1]
    decreases |s|
  {
    if |s| > 1 {
      SqueezeLast(s[..|s| - 1], p);
    }
  }

  /** Squeezing the characters of one kind to spaces, which separate too, adds that kind to the
      separators. */
  lemma {:induction false} TokensOfSqueeze(s: string, p: char -> bool, sep: char -> bool, both: char -> bool)
    requires sep(' ') && forall c :: both(c) <==> p(c) || sep(c)
    ensures Tokens(Squeeze(s, p), sep) == Tokens(s, both)
  {
    if s != "" {
      var n := |s| - 1;
      var init := s[..n];
      TokensOfSqueeze(init, p, sep, both);
      var before, after := Squeeze(init, p), Squeeze(s, p);
      if n > 0 {
        SqueezeLast(init, p);
        assert init[n - 1] == s[n - 1];
      }
      if after != before {
        assert after[..|after| - 1] == before;
      }
    }
  }

  function Join(parts: seq<string>, sep: char): string
    requires parts != []
  {
    if |parts| == 1 then parts[0] else parts[0] + [sep] + Join(parts[1..], sep)
  }

  lemma {:induction false} JoinLast(parts: seq<string>, last: string, sep: char)
    requires parts != []
    ensures Join(parts + [last], sep) == Join(parts, sep) + [sep] + last
  {
    if |parts| > 1 {
      JoinLast(parts[1..], last, sep);
      assert (parts + [last])[1..] == parts[1..] + [last];
    } else {
      assert (parts + [last])[1..] == [last];
    }
  }

  lemma JoinSplits(parts: seq<string>, sep: char)
    requires parts != [] && sep !in parts[0]
    ensures sep in Join(parts, sep) <==> |parts| > 1
  {
    if |parts| > 1 {
      assert (parts[0] + [sep] + Join(parts[1..], sep))[|parts[0]|] == sep;
    }
  }

  /** Joined parts can be read back when no part contains the separator. */
  lemma {:induction false} JoinInjective(xs: seq<string>, ys: seq<string>, sep: char)
    requires xs != [] && ys != []
    requires forall i :: 0 <= i < |xs| ==> sep !in xs[i]
    requires forall i :: 0 <= i < |ys| ==> sep !in ys[i]
    requires Join(xs, sep) == Join(ys, sep)
    ensures xs == ys
  {
    JoinSplits(xs, sep);
    JoinSplits(ys, sep);
    if |xs| > 1 {
      CutUnique(xs[0], Join(xs[1..], sep), ys[0], Join(ys[1..], sep), sep);
      JoinInjective(xs[1..], ys[1..], sep);
      assert xs == [xs[0]] + xs[1..] && ys == [ys[0]] + ys[1..];
    }
  }

  // ----- Decimal printing -----

  function DecNat(n: nat): (s: string)
    ensures s != [] && All(s, IsDigit)
  {
    var last := [('0' as int + n % 10) as char];
    if n < 10 then last else DecNat(n / 10) + last
  }

  /** `strconv.FormatInt(n, 10)` and `strconv.Itoa`. */
  function Dec(n: int): string {
    if n < 0 then "-" + DecNat(-n) else DecNat(n)
  }

  lemma {:induction false} DecNatInjective(m: nat, n: nat)
    requires DecNat(m) == DecNat(n)
    ensures m == n
  {
    var s, t := DecNat(m), DecNat(n);
    assert s[|s| - 1] as int - '0' as int == m % 10;
    assert t[|t| - 1] as int - '0' as int == n % 10;
    if m >= 10 && n >= 10 {
      assert DecNat(m / 10) == s[..|s| - 1] && DecNat(n / 10) == t[..|t| - 1];
      DecNatInjective(m / 10, n / 10);
    }
  }

  lemma DecInjective(m: int, n: int)
    requires Dec(m) == Dec(n)
    ensures m == n
  {
    assert Dec(m)[0] == '-' <==> m < 0;
    assert Dec(n)[0] == '-' <==> n < 0;
    if m < 0 {
      assert Dec(m)[1..] == DecNat(-m) && Dec(n)[1..] == DecNat(-n);
      DecNatInjective(-m, -n);
    } else {
      DecNatInjective(m, n);
    }
  }

  /** A name and a printed number with a mark in between can be read back. */
  lemma NumberedSame(a: string, m: int, b: string, n: int)
    ensures a + "#" + Dec(m) == b + "#" + Dec(n) <==> a == b && m == n
  {
    hide Dec;
    DecChars(m);
    DecChars(n);
    if a + "#" + Dec(m) == b + "#" + Dec(n) {
      CutLast(a, Dec(m), b, Dec(n), '#');
      DecInjective(m, n);
    }
  }

  /** A printed number is made of digits, perhaps after a minus sign. */
  lemma DecChars(n: int)
    ensures Dec(n) != [] && forall c :: c in Dec(n) ==> IsDigit(c) || c == '-'
  {
  }
}
