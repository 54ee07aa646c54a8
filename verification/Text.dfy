/** ASCII text helpers shared by the models. */
module Text {
  /** The final status of a shipment, and of each of its parts. */
  const DELIVERED := "DELIVERED"

  predicate IsSpace(c: char) {
    c == ' ' || '\t' <= c <= '\r'
  }

  predicate IsDigit(c: char) {
    '0' <= c <= '9'
  }

  predicate AllDigits(s: string) {
    forall i :: 0 <= i < |s| ==> IsDigit(s[i])
  }

  function Number(digits: string): nat
    requires AllDigits(digits)
  {
    if digits == [] then 0 else 10 * Number(digits[..|digits| - 1]) + (digits[|digits| - 1] - '0') as nat
  }

  function LowerChar(c: char): char {
    if 'A' <= c <= 'Z' then c + ' ' else c
  }

  function Lower(s: string): (t: string)
    ensures |t| == |s|
  {
    seq(|s|, i requires 0 <= i < |s| => LowerChar(s[i]))
  }

  function UpperChar(c: char): char {
    if 'a' <= c <= 'z' then c - ' ' else c
  }

  function Upper(s: string): (t: string)
    ensures |t| == |s| && forall i :: 0 <= i < |s| ==> t[i] == UpperChar(s[i])
  {
    seq(|s|, i requires 0 <= i < |s| => UpperChar(s[i]))
  }

  predicate EqIgnoringCase(a: string, b: string) {
    Upper(a) == Upper(b)
  }

  function Trim(s: string): (t: string)
    ensures |t| <= |s|
    ensures t != [] ==> !IsSpace(t[0]) && !IsSpace(t[|t| - 1])
    ensures s != [] && !IsSpace(s[0]) && !IsSpace(s[|s| - 1]) ==> t == s
  {
    if s != [] && IsSpace(s[0]) then Trim(s[1..])
    else if s != [] && IsSpace(s[|s| - 1]) then Trim(s[..|s| - 1])
    else s
  }

  /** The order of text: by characters, a prefix first. */
  predicate TextLe(a: string, b: string) {
    a == [] || (b != [] && (a[0] < b[0] || (a[0] == b[0] && TextLe(a[1..], b[1..]))))
  }

  lemma {:induction false} TextLeTotal(a: string, b: string)
    ensures TextLe(a, b) || TextLe(b, a)
    ensures TextLe(a, b) && TextLe(b, a) ==> a == b
  {
    if a != [] && b != [] {
      TextLeTotal(a[1..], b[1..]);
      assert a == [a[0]] + a[1..] && b == [b[0]] + b[1..];
    }
  }

  lemma {:induction false} TextLeTransitive(a: string, b: string, c: string)
    requires TextLe(a, b) && TextLe(b, c)
    ensures TextLe(a, c)
  {
    if a != [] && a[0] == b[0] && b[0] == c[0] {
      TextLeTransitive(a[1..], b[1..], c[1..]);
    }
  }

  /** At the first place where they differ the character is smaller, or the text ends there. */
  predicate IsBefore(a: string, b: string) {
    exists k :: 0 <= k <= |a| && k < |b| && a[..k] == b[..k] && (k == |a| || a[k] < b[k])
  }

  lemma {:induction false} TextLeIsLexicographic(a: string, b: string)
    ensures TextLe(a, b) <==> a == b || IsBefore(a, b)
  {
    if a == [] {
      if b != [] { assert a[..0] == b[..0]; }
    } else if b != [] {
      TextLeIsLexicographic(a[1..], b[1..]);
      if a[0] == b[0] {
        SameFirst(a, b);
      } else if a[0] < b[0] {
        assert a[..0] == b[..0];
      } else {
        DifferentFirst(a, b);
      }
    }
  }

  lemma SameFirst(a: string, b: string)
    requires a != [] && b != [] && a[0] == b[0]
    ensures IsBefore(a, b) <==> IsBefore(a[1..], b[1..])
    ensures a == b <==> a[1..] == b[1..]
  {
    if IsBefore(a[1..], b[1..]) {
      var k :| 0 <= k <= |a[1..]| && k < |b[1..]| && a[1..][..k] == b[1..][..k]
               && (k == |a[1..]| || a[1..][k] < b[1..][k]);
      assert a[..k + 1] == [a[0]] + a[1..][..k] && b[..k + 1] == [b[0]] + b[1..][..k];
    }
    if IsBefore(a, b) {
      var k :| 0 <= k <= |a| && k < |b| && a[..k] == b[..k] && (k == |a| || a[k] < b[k]);
      assert k > 0;
      assert a[1..][..k - 1] == a[..k][1..] && b[1..][..k - 1] == b[..k][1..];
    }
    assert a == [a[0]] + a[1..] && b == [b[0]] + b[1..];
  }

  lemma PrefixesDiffer(a: string, b: string, k: nat)
    requires 0 < k <= |a| && k <= |b| && a[0] != b[0]
    ensures a[..k] != b[..k]
  {
    assert a[..k][0] == a[0] && b[..k][0] == b[0];
  }

  lemma DifferentFirst(a: string, b: string)
    requires a != [] && b != [] && b[0] < a[0]
    ensures !IsBefore(a, b)
  {
    forall k | 0 < k <= |a| && k < |b| ensures a[..k] != b[..k] {
      PrefixesDiffer(a, b, k);
    }
  }

  // ---------- words ----------

  /** `split_whitespace`. */
  function Words(s: string): (words: seq<string>)
    ensures forall w :: w in words ==> w != []
  {
    if s == [] then []
    else if IsSpace(s[0]) then Words(s[1..])
    else
      var n := WordLength(s);
      [s[..n]] + Words(s[n..])
  }

  function WordLength(s: string): (n: nat)
    ensures n <= |s| && (s != [] && !IsSpace(s[0]) ==> n > 0)
  {
    if s == [] || IsSpace(s[0]) then 0 else 1 + WordLength(s[1..])
  }

  function Joined(words: seq<string>): string {
    if words == [] then [] else if |words| == 1 then words[0] else words[0] + " " + Joined(words[1..])
  }

  predicate IsWord(s: string) {
    s != [] && forall i :: 0 <= i < |s| ==> !IsSpace(s[i])
  }

  /** Nothing is joined to what comes behind it, or before it. */
  predicate EndsApart(s: string) {
    s == [] || IsSpace(s[|s| - 1])
  }

  predicate BeginsApart(s: string) {
    s == [] || IsSpace(s[0])
  }

  lemma {:induction false} LengthOfWord(word: string, after: string)
    requires IsWord(word) && BeginsApart(after)
    ensures WordLength(word + after) == |word|
  {
    var s := word + after;
    if |word| == 1 {
      assert s[1..] == after;
    } else {
      assert s[1..] == word[1..] + after;
      LengthOfWord(word[1..], after);
    }
  }

  lemma {:induction false} WordAndRest(word: string, after: string)
    requires IsWord(word) && BeginsApart(after)
    ensures Words(word + after) == [word] + Words(after)
  {
    var s := word + after;
    LengthOfWord(word, after);
    assert !IsSpace(s[0]) && s[..|word|] == word && s[|word|..] == after;
  }

  lemma {:induction false} FirstWord(s: string)
    requires s != [] && !IsSpace(s[0])
    ensures var n := WordLength(s);
      0 < n <= |s| && IsWord(s[..n]) && BeginsApart(s[n..])
  {
    if |s| > 1 && !IsSpace(s[1]) {
      FirstWord(s[1..]);
      var n := WordLength(s[1..]);
      assert s[..n + 1] == [s[0]] + s[1..][..n] && s[n + 1..] == s[1..][n..];
    } else {
      assert WordLength(s) == 1;
    }
  }

  /** What a text without a space in front begins with. */
  lemma WordFirst(s: string, tail: string)
    requires s != [] && !IsSpace(s[0]) && EndsApart(s)
    ensures var n := WordLength(s);
      && 0 < n < |s| && EndsApart(s[n..]) && s == s[..n] + s[n..] && s + tail == s[..n] + (s[n..] + tail)
      && Words(s) == [s[..n]] + Words(s[n..]) && Words(s + tail) == [s[..n]] + Words(s[n..] + tail)
  {
    var n := WordLength(s);
    FirstWord(s);
    assert s == s[..n] + s[n..];
    assert n < |s|;
    assert s + tail == s[..n] + (s[n..] + tail);
    WordAndRest(s[..n], s[n..]);
    WordAndRest(s[..n], s[n..] + tail);
  }

  lemma WordsRegrouped(a: seq<string>, b: seq<string>, c: seq<string>)
    ensures a + (b + c) == (a + b) + c
  {
  }

  lemma BehindSpace(c: char, s: string)
    requires IsSpace(c)
    ensures Words([c] + s) == Words(s)
  {
    assert ([c] + s)[1..] == s;
  }

  /** A text is its words: a word that stands apart is one of them, at its place. */
  lemma {:induction false} WordsAround(before: string, word: string, after: string)
    requires EndsApart(before) && IsWord(word) && BeginsApart(after)
    ensures Words(before + (word + after)) == Words(before) + ([word] + Words(after))
    decreases |before|
  {
    var tail := word + after;
    if before == [] {
      assert before + tail == tail;
      WordAndRest(word, after);
    } else if IsSpace(before[0]) {
      WordsAround(before[1..], word, after);
      BehindSpace(before[0], before[1..]);
      BehindSpace(before[0], before[1..] + tail);
      assert before == [before[0]] + before[1..] && before + tail == [before[0]] + (before[1..] + tail);
    } else {
      var n := WordLength(before);
      WordFirst(before, tail);
      WordsAround(before[n..], word, after);
      WordsRegrouped([before[..n]], Words(before[n..]), [word] + Words(after));
    }
  }

  lemma {:induction false} AllAreWords(s: string)
    ensures forall w :: w in Words(s) ==> IsWord(w)
    decreases |s|
  {
    if s != [] {
      if IsSpace(s[0]) {
        AllAreWords(s[1..]);
      } else {
        FirstWord(s);
        AllAreWords(s[WordLength(s)..]);
      }
    }
  }

  /** Joining words and splitting the text again gives the words. */
  lemma {:induction false} WordsOfJoined(words: seq<string>)
    requires forall w :: w in words ==> IsWord(w)
    ensures Words(Joined(words)) == words
  {
    if |words| == 1 {
      WordAndRest(words[0], []);
      assert words[0] + [] == words[0] && Words([]) == [];
    } else if |words| > 1 {
      WordsOfJoined(words[1..]);
      var rest := " " + Joined(words[1..]);
      assert rest[1..] == Joined(words[1..]);
      assert Joined(words) == words[0] + rest;
      WordAndRest(words[0], rest);
    }
  }

  lemma {:induction false} SpaceBehind(s: string, c: char)
    requires IsSpace(c)
    ensures Words(s + [c]) == Words(s)
    decreases |s|
  {
    if s == [] {
      assert s + [c] == [c] && [c][1..] == [];
    } else if IsSpace(s[0]) {
      assert (s + [c])[1..] == s[1..] + [c];
      SpaceBehind(s[1..], c);
    } else {
      var n := WordLength(s);
      FirstWord(s);
      SpaceBehind(s[n..], c);
      assert s == s[..n] + s[n..] && s + [c] == s[..n] + (s[n..] + [c]);
      WordAndRest(s[..n], s[n..]);
      WordAndRest(s[..n], s[n..] + [c]);
    }
  }

  /** Trimming takes spaces off both ends, and nothing else. */
  lemma {:induction false} TrimCutsSpaces(s: string) returns (i: nat, j: nat)
    ensures i <= j <= |s| && Trim(s) == s[i..j]
    ensures forall k :: 0 <= k < i || j <= k < |s| ==> IsSpace(s[k])
  {
    i, j := 0, |s|;
    if s != [] && IsSpace(s[0]) {
      var a, b := TrimCutsSpaces(s[1..]);
      i, j := a + 1, b + 1;
      assert s[i..j] == s[1..][a..b];
      assert forall k :: 0 < k < |s| ==> s[k] == s[1..][k - 1];
    } else if s != [] && IsSpace(s[|s| - 1]) {
      i, j := TrimCutsSpaces(s[..|s| - 1]);
      assert s[i..j] == s[..|s| - 1][i..j];
      assert forall k :: 0 <= k < |s| - 1 ==> s[k] == s[..|s| - 1][k];
    }
  }

  lemma {:induction false} TrimKeepsWords(s: string)
    ensures Words(Trim(s)) == Words(s)
  {
    if s != [] && IsSpace(s[0]) {
      TrimKeepsWords(s[1..]);
    } else if s != [] && IsSpace(s[|s| - 1]) {
      TrimKeepsWords(s[..|s| - 1]);
      SpaceBehind(s[..|s| - 1], s[|s| - 1]);
      assert s == s[..|s| - 1] + [s[|s| - 1]];
    }
  }

  // ---------- single characters ----------

  /** The one difference that folding the case of a letter can make. */
  lemma CaseOfLetters(s: string, i: nat)
    requires i < |s|
    ensures 'a' <= s[i] <= 'z' ==> Upper(s)[i] == s[i] - ' ' && Lower(s)[i] == s[i]
    ensures 'A' <= s[i] <= 'Z' ==> Lower(s)[i] == s[i] + ' ' && Upper(s)[i] == s[i]
    ensures !('a' <= s[i] <= 'z') && !('A' <= s[i] <= 'Z') ==> Upper(s)[i] == Lower(s)[i] == s[i]
  {
  }

  /** The value of a digit behind a number. */
  lemma NumberGoesOn(digits: string, c: char)
    requires AllDigits(digits) && IsDigit(c)
    ensures Number([]) == 0 && AllDigits(digits + [c])
    ensures Number(digits + [c]) == 10 * Number(digits) + (c as nat - '0' as nat)
  {
    assert (digits + [c])[..|digits|] == digits;
  }
}
