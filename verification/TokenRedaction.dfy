/** Removal of access tokens from log lines. */
module TokenRedaction {
  import opened Options
  import opened Text

  const MARK := "[REDACTED_TOKEN]"
  const PREFIX := "sf_"
  const MIN_BODY := 16

  predicate IsTokenChar(c: char) {
    IsDigit(c) || 'A' <= c <= 'Z' || 'a' <= c <= 'z' || c == '_' || c == '-'
  }

  /** How many token characters the text begins with. */
  function Run(s: string): (n: nat)
    ensures n <= |s| && (forall i :: 0 <= i < n ==> IsTokenChar(s[i])) && (n < |s| ==> !IsTokenChar(s[n]))
  {
    if s == [] || !IsTokenChar(s[0]) then 0 else 1 + Run(s[1..])
  }

  /** The text begins with the prefix and at least sixteen token characters. */
  predicate StartsToken(s: string) {
    |s| >= 3 && s[..3] == PREFIX && Run(s[3..]) >= MIN_BODY
  }

  function Redacted(s: string): string {
    if s == [] then []
    else if StartsToken(s) then MARK + Redacted(s[3 + Run(s[3..])..])
    else [s[0]] + Redacted(s[1..])
  }

  lemma RunIs(s: string, n: nat)
    requires n <= |s| && (forall i :: 0 <= i < n ==> IsTokenChar(s[i])) && (n < |s| ==> !IsTokenChar(s[n]))
    ensures Run(s) == n
  {
  }

  /** The end of the token characters from a position on. */
  method TokenEnd(value: string, from: nat) returns (end: nat)
    requires from <= |value|
    ensures end == from + Run(value[from..])
  {
    end := from;
    while end < |value| && IsTokenChar(value[end])
      invariant from <= end <= |value|
      invariant forall i :: from <= i < end ==> IsTokenChar(value[i])
    {
      end := end + 1;
    }
    RunIs(value[from..], end - from);
  }

  lemma Slices(value: string, cursor: nat, end: nat)
    requires cursor + 3 <= end <= |value|
    ensures value[cursor..][..3] == value[cursor..cursor + 3] && value[cursor..][3..] == value[cursor + 3..]
    ensures value[cursor..][end - cursor..] == value[end..] && value[cursor..][1..] == value[cursor + 1..]
  {
  }

  /** What the text at the cursor comes to, when the token characters behind the prefix go up to `end`. */
  lemma TokenIsSkipped(value: string, cursor: nat, end: nat)
    requires cursor + 3 <= end <= |value| && value[cursor..cursor + 3] == PREFIX
    requires end == cursor + 3 + Run(value[cursor + 3..])
    ensures end - (cursor + 3) >= MIN_BODY ==> Redacted(value[cursor..]) == MARK + Redacted(value[end..])
    ensures end - (cursor + 3) < MIN_BODY ==>
      Redacted(value[cursor..]) == [value[cursor]] + Redacted(value[cursor + 1..])
  {
    Slices(value, cursor, end);
  }

  lemma CharacterIsKept(value: string, cursor: nat)
    requires cursor < |value| && !(cursor + 3 <= |value| && value[cursor..cursor + 3] == PREFIX)
    ensures Redacted(value[cursor..]) == [value[cursor]] + Redacted(value[cursor + 1..])
  {
    var rest := value[cursor..];
    assert |rest| >= 3 ==> rest[..3] == value[cursor..cursor + 3];
    assert rest[1..] == value[cursor + 1..];
  }

  /** One turn of the loop: what is appended, and where the cursor goes. */
  method Advance(value: string, cursor: nat) returns (piece: string, next: nat)
    requires cursor < |value|
    ensures cursor < next <= |value| && Redacted(value[cursor..]) == piece + Redacted(value[next..])
  {
    if cursor + 3 <= |value| && value[cursor..cursor + 3] == PREFIX {
      var end := TokenEnd(value, cursor + 3);
      TokenIsSkipped(value, cursor, end);
      if end - (cursor + 3) >= MIN_BODY {
        return MARK, end;
      }
    } else {
      CharacterIsKept(value, cursor);
    }
    return [value[cursor]], cursor + 1;
  }

  lemma Regrouped(result: string, piece: string, tail: string)
    ensures (result + piece) + tail == result + (piece + tail)
  {
  }

  /** `redact_tokens`. */
  method RedactTokens(value: string) returns (result: string)
    ensures result == Redacted(value)
  {
    var cursor := 0;
    ghost var tail, whole := Redacted(value[0..]), Redacted(value);
    assert value[0..] == value;
    result := [];
    while cursor < |value|
      invariant cursor <= |value| && tail == Redacted(value[cursor..]) && result + tail == whole
    {
      var piece, next := Advance(value, cursor);
      Regrouped(result, piece, Redacted(value[next..]));
      tail := Redacted(value[next..]);
      result := result + piece;
      cursor := next;
    }
    assert tail == [];
  }

  // ---------- what is left ----------

  /** A token that is still legible at p. */
  ghost predicate Leaks(s: string, p: nat) {
    && p + 3 + MIN_BODY <= |s| && s[p..p + 3] == PREFIX
    && forall i :: p + 3 <= i < p + 3 + MIN_BODY ==> IsTokenChar(s[i])
  }

  /** What counts as one: "sf_" and sixteen letters, digits, underscores or dashes. */
  lemma LegibleIff(s: string, p: nat)
    ensures Leaks(s, p) <==>
      && p + 19 <= |s| && s[p] == 's' && s[p + 1] == 'f' && s[p + 2] == '_'
      && forall i :: p + 3 <= i < p + 19 ==>
           '0' <= s[i] <= '9' || 'A' <= s[i] <= 'Z' || 'a' <= s[i] <= 'z' || s[i] == '_' || s[i] == '-'
  {
    if p + 19 <= |s| {
      assert s[p..p + 3] == [s[p], s[p + 1], s[p + 2]];
      assert PREFIX[0] == 's' && PREFIX[1] == 'f' && PREFIX[2] == '_';
    }
  }

  lemma LeakStartsToken(s: string)
    ensures StartsToken(s) <==> Leaks(s, 0)
  {
    if Leaks(s, 0) {
      assert forall i :: 0 <= i < MIN_BODY ==> s[3..][i] == s[i + 3];
    }
  }

  lemma LeakBehind(s: string, p: nat)
    requires s != [] && Leaks(s[1..], p)
    ensures Leaks(s, p + 1)
  {
    assert s[p + 1..p + 4] == s[1..][p..p + 3];
    assert forall i :: 0 <= i < |s| - 1 ==> s[1..][i] == s[i + 1];
    forall i | p + 4 <= i < p + 4 + MIN_BODY ensures IsTokenChar(s[i]) {
      assert s[i] == s[1..][i - 1];
    }
  }

  /** As far as the output has no bracket, it is the input. */
  lemma {:induction false} OutputWithoutMarkIsInput(s: string, k: nat)
    requires k <= |Redacted(s)| && '[' !in Redacted(s)[..k]
    ensures k <= |s| && Redacted(s)[..k] == s[..k]
  {
    if k > 0 {
      assert Redacted(s)[0] in Redacted(s)[..k];
      assert !StartsToken(s);
      assert Redacted(s)[1..] == Redacted(s[1..]);
      forall c | c in Redacted(s[1..])[..k - 1] ensures c in Redacted(s)[..k] {
        var i :| 0 <= i < k - 1 && Redacted(s[1..])[i] == c;
        assert Redacted(s)[..k][i + 1] == c;
      }
      OutputWithoutMarkIsInput(s[1..], k - 1);
      assert s[..k] == [s[0]] + s[1..][..k - 1];
    }
  }

  lemma LeakAfter(head: string, tail: string, p: nat)
    requires Leaks(head + tail, p) && p >= |head|
    ensures Leaks(tail, p - |head|)
  {
    var s := head + tail;
    assert forall i :: |head| <= i < |s| ==> s[i] == tail[i - |head|];
    assert tail[p - |head|..p - |head| + 3] == s[p..p + 3];
    forall i | p - |head| + 3 <= i < p - |head| + 3 + MIN_BODY ensures IsTokenChar(tail[i]) {
      assert s[i + |head|] == tail[i];
    }
  }

  lemma SameStartSameLeak(s: string, t: string, k: nat)
    requires k == 3 + MIN_BODY && k <= |s| && k <= |t| && s[..k] == t[..k] && Leaks(t, 0)
    ensures Leaks(s, 0)
  {
    assert forall i :: 0 <= i < k ==> s[i] == s[..k][i] && t[i] == t[..k][i];
    assert s[0..3] == t[0..3];
  }

  lemma LeakHasNoBracket(t: string)
    requires Leaks(t, 0)
    ensures t[0] == 's' && '[' !in t[..3 + MIN_BODY]
  {
    forall i | 0 <= i < 3 + MIN_BODY ensures t[i] != '[' {
      assert i < 3 ==> t[i] == t[0..3][i] == PREFIX[i];
    }
    assert t[0] == t[0..3][0] == PREFIX[0];
  }

  lemma TokenIsMarked(s: string)
    requires StartsToken(s)
    ensures Redacted(s) != [] && Redacted(s)[0] == '['
  {
    assert MARK[0] == '[';
  }

  lemma NothingLeaksAtStart(s: string)
    ensures !Leaks(Redacted(s), 0)
  {
    if Leaks(Redacted(s), 0) {
      LeakHasNoBracket(Redacted(s));
      OutputWithoutMarkIsInput(s, 3 + MIN_BODY);
      SameStartSameLeak(s, Redacted(s), 3 + MIN_BODY);
      LeakStartsToken(s);
      TokenIsMarked(s);
    }
  }

  lemma LeakBeginsWithS(t: string, p: nat)
    requires Leaks(t, p)
    ensures t[p] == 's'
  {
    assert t[p..p + 3][0] == t[p] && PREFIX[0] == 's';
  }

  lemma MarkHasNoS(i: nat)
    requires i < |MARK|
    ensures MARK[i] != 's'
  {
  }

  lemma NothingLeaksInMark(tail: string, p: nat)
    requires p < |MARK|
    ensures !Leaks(MARK + tail, p)
  {
    if Leaks(MARK + tail, p) {
      MarkHasNoS(p);
      LeakBeginsWithS(MARK + tail, p);
    }
  }

  /** No token is legible in the output. */
  lemma {:induction false} NothingLeaks(s: string, p: nat)
    ensures !Leaks(Redacted(s), p)
  {
    if s == [] {
    } else if StartsToken(s) {
      var rest := s[3 + Run(s[3..])..];
      if p < |MARK| {
        NothingLeaksInMark(Redacted(rest), p);
      } else if Leaks(Redacted(s), p) {
        LeakAfter(MARK, Redacted(rest), p);
        NothingLeaks(rest, p - |MARK|);
      }
    } else if p == 0 {
      NothingLeaksAtStart(s);
    } else if Leaks(Redacted(s), p) {
      LeakAfter([s[0]], Redacted(s[1..]), p);
      NothingLeaks(s[1..], p - 1);
    }
  }

  lemma {:induction false} CleanIsUnchanged(s: string)
    requires forall p :: !Leaks(s, p)
    ensures Redacted(s) == s
  {
    if s != [] {
      LeakStartsToken(s);
      forall p: nat ensures !Leaks(s[1..], p) {
        if Leaks(s[1..], p) {
          LeakBehind(s, p);
        }
      }
      CleanIsUnchanged(s[1..]);
    }
  }

  /** A line is unchanged exactly if no token is legible in it. */
  lemma UnchangedIffClean(s: string)
    ensures Redacted(s) == s <==> forall p :: !Leaks(s, p)
  {
    if Redacted(s) == s {
      forall p ensures !Leaks(s, p) { NothingLeaks(s, p); }
    } else if forall p :: !Leaks(s, p) {
      CleanIsUnchanged(s);
    }
  }

  lemma RedactingTwiceIsRedactingOnce(s: string)
    ensures Redacted(Redacted(s)) == Redacted(s)
  {
    forall p ensures !Leaks(Redacted(s), p) { NothingLeaks(s, p); }
    CleanIsUnchanged(Redacted(s));
  }

  lemma TokenGoesFirst(body: string, after: string)
    requires |body| >= MIN_BODY && (forall i :: 0 <= i < |body| ==> IsTokenChar(body[i]))
    requires after == [] || !IsTokenChar(after[0])
    ensures Redacted(PREFIX + body + after) == MARK + Redacted(after)
  {
    var s := PREFIX + body + after;
    assert s[..3] == PREFIX && s[3..] == body + after;
    RunIs(s[3..], |body|);
    assert s[3 + |body|..] == after;
  }

  lemma CharacterGoesFirst(c: char, rest: string)
    requires !Leaks([c] + rest, 0)
    ensures Redacted([c] + rest) == [c] + Redacted(rest)
  {
    LeakStartsToken([c] + rest);
    assert ([c] + rest)[1..] == rest;
  }

  lemma ShorterIsClean(before: string, rest: string)
    requires before != [] && forall p :: 0 <= p < |before| ==> !Leaks(before + rest, p)
    ensures forall p :: 0 <= p < |before| - 1 ==> !Leaks(before[1..] + rest, p)
  {
    assert (before + rest)[1..] == before[1..] + rest;
    forall p | 0 <= p < |before| - 1 ensures !Leaks(before[1..] + rest, p) {
      if Leaks(before[1..] + rest, p) {
        LeakBehind(before + rest, p);
      }
    }
  }

  lemma Prepended(before: string, rest: string, output: string)
    requires before != []
    ensures before + rest == [before[0]] + (before[1..] + rest)
    ensures before + output == [before[0]] + (before[1..] + output)
  {
  }

  lemma {:induction false} TextBeforeIsKept(before: string, rest: string)
    requires forall p :: 0 <= p < |before| ==> !Leaks(before + rest, p)
    ensures Redacted(before + rest) == before + Redacted(rest)
  {
    if before == [] {
      assert before + rest == rest;
    } else {
      ShorterIsClean(before, rest);
      TextBeforeIsKept(before[1..], rest);
      Prepended(before, rest, Redacted(rest));
      CharacterGoesFirst(before[0], before[1..] + rest);
    }
  }

  /** Text before the first token is kept, and a token goes as a whole: from its prefix to its last
      token character, whatever its length. */
  lemma OnlyTokensGo(before: string, body: string, after: string)
    requires |body| >= MIN_BODY && (forall i :: 0 <= i < |body| ==> IsTokenChar(body[i]))
    requires after == [] || !IsTokenChar(after[0])
    requires forall p :: 0 <= p < |before| ==> !Leaks(before + (PREFIX + body + after), p)
    ensures Redacted(before + (PREFIX + body + after)) == before + (MARK + Redacted(after))
  {
    TextBeforeIsKept(before, PREFIX + body + after);
    TokenGoesFirst(body, after);
  }

  // ---------- the whole log line ----------

  const MAX_LOG_ENTRY := 32 * 1024
  const TRUNCATED := "[TRUNCATED]"

  predicate IsBreak(c: char) {
    c == '\r' || c == '\n'
  }

  function OneLine(s: string): (line: string)
    ensures forall i :: 0 <= i < |line| ==> !IsBreak(line[i])
  {
    if s == [] then [] else (if IsBreak(s[0]) then "\\n" else [s[0]]) + OneLine(s[1..])
  }

  // ---------- length in bytes ----------

  /** How many bytes UTF-8 takes for a character. */
  function Width(c: char): (w: nat)
    ensures 1 <= w <= 4
  {
    if c < '\U{80}' then 1 else if c < '\U{800}' then 2 else if c < '\U{10000}' then 3 else 4
  }

  function Utf8Length(s: string): nat {
    if s == [] then 0 else Width(s[0]) + Utf8Length(s[1..])
  }

  /** How many characters are before a byte offset, if it is at a character boundary. */
  function Boundary(s: string, offset: nat): (k: Option<nat>)
    ensures k.Some? ==> k.value <= |s|
  {
    if offset == 0 then Some(0)
    else if s == [] || offset < Width(s[0]) then None
    else
      var rest := Boundary(s[1..], offset - Width(s[0]));
      if rest.None? then None else Some(rest.value + 1)
  }

  lemma {:induction false} BoundaryIsPrefix(s: string, offset: nat, k: nat)
    requires k <= |s|
    ensures Boundary(s, offset) == Some(k) <==> Utf8Length(s[..k]) == offset
  {
    if k > 0 {
      assert s[..k][1..] == s[1..][..k - 1];
      if offset >= Width(s[0]) {
        BoundaryIsPrefix(s[1..], offset - Width(s[0]), k - 1);
      }
    }
  }

  /** How many characters fit into a number of bytes. */
  function Fitting(s: string, max: nat): (k: nat)
    ensures k <= |s|
  {
    if s == [] || max < Width(s[0]) then 0 else 1 + Fitting(s[1..], max - Width(s[0]))
  }

  lemma {:induction false} FittingFits(s: string, max: nat)
    ensures var k := Fitting(s, max);
      Utf8Length(s[..k]) <= max && (k < |s| ==> Utf8Length(s[..k]) + Width(s[k]) > max)
  {
    if s != [] && max >= Width(s[0]) {
      var k := Fitting(s, max);
      FittingFits(s[1..], max - Width(s[0]));
      assert s[..k][1..] == s[1..][..k - 1];
    }
  }

  lemma {:induction false} Utf8LengthGrows(s: string, j: nat, k: nat)
    requires j < k <= |s|
    ensures Utf8Length(s[..j]) + Width(s[j]) <= Utf8Length(s[..k])
  {
    assert s[..k][1..] == s[1..][..k - 1];
    if j > 0 {
      assert s[..j][1..] == s[1..][..j - 1];
      Utf8LengthGrows(s[1..], j - 1, k - 1);
    }
  }

  /** The greatest boundary within the limit has before it all that fits. */
  lemma LastBoundaryIsFitting(s: string, max: nat, offset: nat, k: nat)
    requires k <= |s| && Utf8Length(s[..k]) == offset <= max
    requires Utf8Length(s[..Fitting(s, max)]) <= offset
    ensures k == Fitting(s, max)
  {
    var fitting := Fitting(s, max);
    FittingFits(s, max);
    if k < fitting {
      Utf8LengthGrows(s, k, fitting);
    } else if fitting < k {
      Utf8LengthGrows(s, fitting, k);
    }
  }

  /** `bounded_line`: what is too long is cut where a character ends, and marked. */
  function BoundedLine(raw: string): string {
    var redacted := Redacted(OneLine(raw));
    if Utf8Length(redacted) <= MAX_LOG_ENTRY then redacted
    else redacted[..Fitting(redacted, MAX_LOG_ENTRY)] + TRUNCATED
  }

  method BoundLine(raw: string) returns (line: string)
    ensures line == BoundedLine(raw)
  {
    line := RedactTokens(OneLine(raw));
    if Utf8Length(line) <= MAX_LOG_ENTRY {
      return;
    }
    var boundary := MAX_LOG_ENTRY;
    FittingFits(line, MAX_LOG_ENTRY);
    ghost var fitting := Fitting(line, MAX_LOG_ENTRY);
    BoundaryIsPrefix(line, Utf8Length(line[..fitting]), fitting);
    while Boundary(line, boundary).None?
      invariant Utf8Length(line[..fitting]) <= boundary <= MAX_LOG_ENTRY
      decreases boundary
    {
      boundary := boundary - 1;
    }
    var k := Boundary(line, boundary).value;
    BoundaryIsPrefix(line, boundary, k);
    LastBoundaryIsFitting(line, MAX_LOG_ENTRY, boundary, k);
    line := line[..k] + TRUNCATED;
  }

  lemma {:induction false} RedactionAddsNoBreak(s: string)
    requires forall i :: 0 <= i < |s| ==> !IsBreak(s[i])
    ensures forall i :: 0 <= i < |Redacted(s)| ==> !IsBreak(Redacted(s)[i])
  {
    if s == [] {
    } else if StartsToken(s) {
      RedactionAddsNoBreak(s[3 + Run(s[3..])..]);
      assert forall i :: 0 <= i < |MARK| ==> !IsBreak(MARK[i]);
    } else {
      RedactionAddsNoBreak(s[1..]);
    }
  }

  /** A legible token lies before the mark: the mark's bracket is no part of one, and the mark is short. */
  lemma LeakEndsBefore(text: string, p: nat)
    requires Leaks(text + TRUNCATED, p)
    ensures p + 3 + MIN_BODY <= |text|
  {
    var cut := text + TRUNCATED;
    assert cut[|text|] == '[' && |TRUNCATED| == 11;
    assert cut[p..p + 3][0] == cut[p] && cut[p..p + 3][1] == cut[p + 1] && cut[p..p + 3][2] == cut[p + 2];
    assert p <= |text| ==> !(p + 3 <= |text| < p + 3 + MIN_BODY);
  }

  lemma SameTextSameLeak(text: string, tail: string, other: string, p: nat)
    requires p + 3 + MIN_BODY <= |text| && Leaks(text + tail, p)
    ensures Leaks(text + other, p)
  {
    assert (text + other)[p..p + 3] == (text + tail)[p..p + 3];
    forall i | p + 3 <= i < p + 3 + MIN_BODY ensures IsTokenChar((text + other)[i]) {
      assert (text + other)[i] == (text + tail)[i];
    }
  }

  lemma CuttingLeaksNothing(s: string, k: nat, p: nat)
    requires k <= |s| && !Leaks(s, p)
    ensures !Leaks(s[..k] + TRUNCATED, p)
  {
    assert s[..k] + s[k..] == s;
    if Leaks(s[..k] + TRUNCATED, p) {
      LeakEndsBefore(s[..k], p);
      SameTextSameLeak(s[..k], TRUNCATED, s[k..], p);
    }
  }

  lemma {:induction false} Utf8LengthOfBoth(s: string, t: string)
    ensures Utf8Length(s + t) == Utf8Length(s) + Utf8Length(t)
  {
    if s == [] {
      assert s + t == t;
    } else {
      assert (s + t)[1..] == s[1..] + t;
      Utf8LengthOfBoth(s[1..], t);
    }
  }

  lemma {:induction false} AsciiIsAsLong(s: string)
    requires forall i :: 0 <= i < |s| ==> s[i] < '\U{80}'
    ensures Utf8Length(s) == |s|
  {
    if s != [] {
      AsciiIsAsLong(s[1..]);
    }
  }

  lemma CutIsShort(s: string, max: nat, mark: string)
    requires forall i :: 0 <= i < |mark| ==> mark[i] < '\U{80}'
    ensures Utf8Length(s[..Fitting(s, max)] + mark) <= max + |mark|
  {
    FittingFits(s, max);
    Utf8LengthOfBoth(s[..Fitting(s, max)], mark);
    AsciiIsAsLong(mark);
  }

  lemma CutHasNoBreak(s: string, k: nat)
    requires k <= |s| && forall i :: 0 <= i < |s| ==> !IsBreak(s[i])
    ensures forall i :: 0 <= i < k + |TRUNCATED| ==> !IsBreak((s[..k] + TRUNCATED)[i])
  {
    assert forall i :: 0 <= i < |TRUNCATED| ==> !IsBreak(TRUNCATED[i]);
  }

  /** Breaks are written out, each for itself; everything else stays where it is. */
  lemma {:induction false} BreaksAreWrittenOut(before: string, c: char, after: string)
    ensures OneLine(before + [c] + after) ==
      OneLine(before) + (if c == '\r' || c == '\n' then ['\\', 'n'] else [c]) + OneLine(after)
  {
    var s := before + [c] + after;
    if before == [] {
      assert s == [c] + after && s[1..] == after;
    } else {
      assert s[1..] == before[1..] + [c] + after;
      BreaksAreWrittenOut(before[1..], c, after);
    }
  }

  /** A line that fits is logged whole, and of a longer one all that fits, and the mark. */
  lemma LoggedLineIs(raw: string) returns (n: nat)
    ensures var line := Redacted(OneLine(raw));
      if Utf8Length(line) <= 32 * 1024 then n == |line| && BoundedLine(raw) == line
      else
        && n < |line| && BoundedLine(raw) == line[..n] + TRUNCATED
        && Utf8Length(line[..n]) <= 32 * 1024 < Utf8Length(line[..n]) + Width(line[n])
  {
    var line := Redacted(OneLine(raw));
    FittingFits(line, MAX_LOG_ENTRY);
    n := if Utf8Length(line) <= MAX_LOG_ENTRY then |line| else Fitting(line, MAX_LOG_ENTRY);
    assert line[..|line|] == line;
  }

  /** What is logged is one line, of bounded length in bytes, in which no token is legible. */
  lemma LoggedLinesAreSafe(raw: string, p: nat)
    ensures Utf8Length(BoundedLine(raw)) <= MAX_LOG_ENTRY + |TRUNCATED|
    ensures forall i :: 0 <= i < |BoundedLine(raw)| ==> !IsBreak(BoundedLine(raw)[i])
    ensures !Leaks(BoundedLine(raw), p)
  {
    var line := OneLine(raw);
    RedactionAddsNoBreak(line);
    NothingLeaks(line, p);
    if Utf8Length(Redacted(line)) > MAX_LOG_ENTRY {
      CutIsShort(Redacted(line), MAX_LOG_ENTRY, TRUNCATED);
      CutHasNoBreak(Redacted(line), Fitting(Redacted(line), MAX_LOG_ENTRY));
      CuttingLeaksNothing(Redacted(line), Fitting(Redacted(line), MAX_LOG_ENTRY), p);
    }
  }
}
