/** `str.split()` and `" ".join`, over Python's whitespace. */
module Texts {
  /** `str.isspace` for one character. */
  predicate Space(c: char) {
    var n := c as int;
    || 0x09 <= n <= 0x0D || 0x1C <= n <= 0x20 || n == 0x85 || n == 0xA0 || n == 0x1680 || 0x2000 <= n <= 0x200A
    || n == 0x2028 || n == 0x2029 || n == 0x202F || n == 0x205F || n == 0x3000
  }

  function WordLength(s: string): (n: nat)
    ensures n <= |s|
  {
    if s == "" || Space(s[0]) then 0 else 1 + WordLength(s[1..])
  }

  function Words(s: string): seq<string>
    decreases |s|
  {
    if s == "" then [] else if Space(s[0]) then Words(s[1..])
    else [s[..WordLength(s)]] + Words(s[WordLength(s)..])
  }

  /** `" ".join(words)`. */
  function Spaced(words: seq<string>): string {
    if |words| == 0 then "" else if |words| == 1 then words[0] else words[0] + " " + Spaced(words[1..])
  }

  predicate Word(w: string) { w != "" && forall i :: 0 <= i < |w| ==> !Space(w[i]) }

  lemma {:induction false} WordLengthIs(s: string)
    ensures forall i :: 0 <= i < WordLength(s) ==> !Space(s[i])
    ensures WordLength(s) < |s| ==> Space(s[WordLength(s)])
  {
    if s != "" && !Space(s[0]) { WordLengthIs(s[1..]); }
  }

  lemma {:induction false} WordsAreWords(s: string)
    ensures forall i :: 0 <= i < |Words(s)| ==> Word(Words(s)[i])
    decreases |s|
  {
    if s != "" {
      if Space(s[0]) {
        WordsAreWords(s[1..]);
      } else {
        WordLengthIs(s);
        WordsAreWords(s[WordLength(s)..]);
      }
    }
  }

  lemma {:induction false} WordThen(w: string, rest: string)
    requires forall i :: 0 <= i < |w| ==> !Space(w[i])
    requires rest == "" || Space(rest[0])
    ensures WordLength(w + rest) == |w|
  {
    if w == "" {
      assert w + rest == rest;
    } else {
      assert (w + rest)[1..] == w[1..] + rest;
      WordThen(w[1..], rest);
    }
  }

  /** Splitting a spaced sequence of words gives the words back. */
  lemma {:induction false} SpacedSplits(words: seq<string>)
    requires forall i :: 0 <= i < |words| ==> Word(words[i])
    ensures Words(Spaced(words)) == words
  {
    if |words| == 1 {
      var w := words[0];
      WordThen(w, "");
      assert w + "" == w;
      assert w[|w|..] == "" && w[..|w|] == w;
    } else if |words| > 1 {
      var w, rest := words[0], Spaced(words[1..]);
      SpacedSplits(words[1..]);
      var text := w + (" " + rest);
      assert Spaced(words) == text by { assert w + " " + rest == text; }
      WordThen(w, " " + rest);
      assert text[..|w|] == w && text[|w|..] == " " + rest && (" " + rest)[1..] == rest;
    }
  }

  // ---- Normal form ----------------------------------------------------------------

  /** Words separated by single spaces. */
  ghost predicate Tidy(s: string) {
    && s != "" && !Space(s[0]) && !Space(s[|s| - 1])
    && (forall i :: 0 <= i < |s| && Space(s[i]) ==> s[i] == ' ')
    && (forall i :: 0 <= i < |s| - 1 && Space(s[i]) ==> !Space(s[i + 1]))
  }

  lemma {:induction false} SpacedIsTidy(words: seq<string>)
    requires words != [] && forall i :: 0 <= i < |words| ==> Word(words[i])
    ensures Tidy(Spaced(words))
  {
    if |words| > 1 {
      var w, rest := words[0], Spaced(words[1..]);
      SpacedIsTidy(words[1..]);
      var text := w + " " + rest;
      forall i | 0 <= i < |text| && Space(text[i]) ensures text[i] == ' ' && (i < |text| - 1 ==> !Space(text[i + 1])) {
        if i > |w| { assert text[i] == rest[i - |w| - 1]; }
      }
    }
  }

  /** What follows the first word of a tidy text is a space and a tidy text. */
  lemma TidyRest(s: string, n: nat)
    requires Tidy(s) && n == WordLength(s)
    ensures 0 < n <= |s|
    ensures n < |s| ==> n + 1 < |s| && s[n] == ' ' && Tidy(s[n + 1..])
  {
    hide Space;
    WordLengthIs(s);
    if n < |s| {
      var rest := s[n + 1..];
      assert forall i :: 0 <= i < |rest| ==> rest[i] == s[n + 1 + i];
    }
  }

  lemma {:induction false} TidySplits(s: string)
    requires Tidy(s)
    ensures Words(s) != [] && Spaced(Words(s)) == s
    decreases |s|
  {
    hide Words, WordLength, Spaced, Tidy;
    var n := WordLength(s);
    TidyRest(s, n);
    FirstWord(s);
    if n < |s| {
      var rest := s[n + 1..];
      TidySplits(rest);
      AfterSpace(s[n..]);
      assert s[n..][1..] == rest;
      SpacedPush(s[..n], Words(rest));
      assert s == s[..n] + " " + rest;
    } else {
      assert s[..n] == s && s[n..] == "";
      OneSpaced(s);
    }
  }

  lemma FirstWord(s: string)
    requires Tidy(s)
    ensures Words(s) == [s[..WordLength(s)]] + Words(s[WordLength(s)..])
  {
  }

  lemma SpacedPush(w: string, words: seq<string>)
    requires words != []
    ensures Spaced([w] + words) == w + " " + Spaced(words)
  {
    assert ([w] + words)[1..] == words;
  }

  lemma OneSpaced(w: string)
    ensures Spaced([w] + Words("")) == w
  {
  }

  lemma AfterSpace(s: string)
    requires s != "" && s[0] == ' '
    ensures Words(s) == Words(s[1..])
  {
  }

  /** Splitting and joining changes nothing exactly when the text is tidy, or empty. */
  lemma SplitJoinIff(s: string)
    ensures Spaced(Words(s)) == s <==> s == "" || Tidy(s)
  {
    WordsAreWords(s);
    if s != "" {
      if Words(s) != [] { SpacedIsTidy(Words(s)); }
      if Tidy(s) { TidySplits(s); }
    }
  }

  lemma SplitJoinTwice(s: string)
    ensures Words(Spaced(Words(s))) == Words(s)
  {
    WordsAreWords(s);
    SpacedSplits(Words(s));
  }

  lemma {:induction false} WordsFrom(s: string, c: char)
    requires exists i :: 0 <= i < |Words(s)| && c in Words(s)[i]
    ensures c in s
    decreases |s|
  {
    var i :| 0 <= i < |Words(s)| && c in Words(s)[i];
    if Space(s[0]) {
      WordsFrom(s[1..], c);
    } else if i > 0 {
      var rest := s[WordLength(s)..];
      assert Words(s)[i] == Words(rest)[i - 1];
      WordsFrom(rest, c);
    }
  }

  lemma {:induction false} SpacedFrom(words: seq<string>, c: char)
    requires c in Spaced(words) && c != ' '
    ensures exists i :: 0 <= i < |words| && c in words[i]
  {
    if |words| > 1 {
      if c in words[0] { return; }
      assert c in Spaced(words[1..]);
      SpacedFrom(words[1..], c);
      var i :| 0 <= i < |words[1..]| && c in words[1..][i];
      assert words[i + 1] == words[1..][i];
    } else {
      assert c in words[0];
    }
  }

  function TrimStart(s: string): string { if s != "" && Space(s[0]) then TrimStart(s[1..]) else s }

  function TrimEnd(s: string): string { if s != "" && Space(s[|s| - 1]) then TrimEnd(s[..|s| - 1]) else s }

  /** `str.strip()`. */
  function Strip(s: string): string { TrimEnd(TrimStart(s)) }

  lemma {:induction false} TrimStartIs(s: string)
    ensures var r := TrimStart(s); |r| <= |s| && s[|s| - |r|..] == r && (r != "" ==> !Space(r[0]))
    ensures forall i :: 0 <= i < |s| - |TrimStart(s)| ==> Space(s[i])
  {
    hide Space;
    if s != "" && Space(s[0]) {
      var t := s[1..];
      TrimStartIs(t);
      var r := TrimStart(t);
      assert TrimStart(s) == r && s[|s| - |r|..] == t[|t| - |r|..];
      forall i | 0 <= i < |s| - |r| ensures Space(s[i]) {
        if i > 0 { assert s[i] == t[i - 1]; }
      }
    }
  }

  lemma {:induction false} TrimEndIs(s: string)
    ensures var r := TrimEnd(s); |r| <= |s| && s[..|r|] == r && (r != "" ==> !Space(r[|r| - 1]))
    ensures forall i :: |TrimEnd(s)| <= i < |s| ==> Space(s[i])
  {
    hide Space;
    if s != "" && Space(s[|s| - 1]) {
      var t := s[..|s| - 1];
      TrimEndIs(t);
      var r := TrimEnd(t);
      assert TrimEnd(s) == r && s[..|r|] == t[..|r|];
      forall i | |r| <= i < |s| ensures Space(s[i]) {
        if i < |t| { assert s[i] == t[i]; }
      }
    }
  }

  /** `r` is what stands in `s` from `k` on, and all around it is blank. */
  ghost predicate BlankAround(s: string, r: string, k: nat) {
    && k + |r| <= |s| && s[k..k + |r|] == r
    && (forall i :: 0 <= i < k ==> Space(s[i])) && (forall i :: k + |r| <= i < |s| ==> Space(s[i]))
  }

  /** What is stripped is blank; what is left neither starts nor ends with a blank. */
  lemma StripIs(s: string)
    ensures exists k :: BlankAround(s, Strip(s), k)
    ensures Strip(s) != "" ==> !Space(Strip(s)[0]) && !Space(Strip(s)[|Strip(s)| - 1])
  {
    var t := TrimStart(s);
    TrimStartIs(s);
    TrimEndIs(t);
    var k := |s| - |t|;
    assert s[k..k + |Strip(s)|] == t[..|Strip(s)|];
    forall i | 0 <= i < k || k + |Strip(s)| <= i < |s| ensures Space(s[i]) {
      if i >= k { assert s[i] == t[i - k]; }
    }
    assert BlankAround(s, Strip(s), k);
    if Strip(s) != "" { assert Strip(s)[0] == t[0]; }
  }
}
