/** The parts (koli) of a shipment: which ones its history names, the latest status of each, and the
    status of the whole. */
module KoliStructure {
  import opened Options
  import opened Text

  const U32_MAX := 4_294_967_295

  datatype Entry = Entry(at: string, detail: string)

  // ---------- identifiers ----------

  predicate IsAlphanumeric(c: char) {
    IsDigit(c) || 'A' <= c <= 'Z' || 'a' <= c <= 'z'
  }

  predicate IsIdChar(c: char) {
    IsAlphanumeric(c) || c == '.'
  }

  /** A part's suffix: digits that read as a positive 32-bit number. */
  predicate IsSuffix(s: string) {
    s != [] && AllDigits(s) && 0 < Number(s) <= U32_MAX
  }

  function Id(parent: string, suffix: string): string {
    parent + "." + suffix
  }

  function LastDot(s: string): (dot: Option<nat>)
    ensures dot.Some? ==> dot.value < |s| && s[dot.value] == '.' && forall i :: dot.value < i < |s| ==> s[i] != '.'
    ensures dot.None? ==> '.' !in s
  {
    if s == [] then None else if s[|s| - 1] == '.' then Some(|s| - 1) else LastDot(s[..|s| - 1])
  }

  datatype Split = Split(parent: string, suffix: string)

  /** `split_koli_id`; the number is that of the suffix. */
  function SplitKoliId(value: string): (split: Option<Split>)
    ensures split.Some? ==> value == Id(split.value.parent, split.value.suffix)
    ensures split.Some? ==> split.value.parent != [] && IsSuffix(split.value.suffix)
  {
    var dot := LastDot(value);
    if dot.None? then None else
      var parent, suffix := value[..dot.value], value[dot.value + 1..];
      if parent == [] || !IsSuffix(suffix) then None else Some(Split(parent, suffix))
  }

  /** Every identifier built from a parent and a suffix splits into just these. */
  lemma SplitRecovers(parent: string, suffix: string)
    requires parent != [] && IsSuffix(suffix)
    ensures SplitKoliId(Id(parent, suffix)) == Some(Split(parent, suffix))
  {
    var id := Id(parent, suffix);
    assert id[|parent|] == '.';
    assert forall i :: |parent| < i < |id| ==> id[i] == suffix[i - |parent| - 1];
    assert LastDot(id) == Some(|parent|);
    assert id[..|parent|] == parent && id[|parent| + 1..] == suffix;
  }

  // ---------- the scan ----------

  predicate Occurs(text: string, needle: string, p: nat) {
    p + |needle| <= |text| && text[p..p + |needle|] == needle
  }

  function Find(text: string, needle: string, from: nat): (p: Option<nat>)
    requires needle != []
    ensures p.Some? ==> from <= p.value && Occurs(text, needle, p.value)
    decreases |text| - from
  {
    if from >= |text| then None
    else if Occurs(text, needle, from) then Some(from)
    else Find(text, needle, from + 1)
  }

  lemma {:induction false} FindIsFirst(text: string, needle: string, from: nat, q: nat)
    requires needle != [] && from <= q && Occurs(text, needle, q)
    ensures Find(text, needle, from).Some? && Find(text, needle, from).value <= q
    decreases |text| - from
  {
    if !Occurs(text, needle, from) {
      FindIsFirst(text, needle, from + 1, q);
    }
  }

  /** `match_indices` from a position on: occurrences that do not overlap. */
  function Scan(text: string, needle: string, from: nat): (starts: set<nat>)
    requires needle != []
    ensures forall p :: p in starts ==> from <= p && Occurs(text, needle, p)
    decreases |text| - from
  {
    var found := Find(text, needle, from);
    if found.None? then {} else {found.value} + Scan(text, needle, found.value + |needle|)
  }

  predicate LeftFree(text: string, p: nat)
    requires p <= |text|
  {
    p == 0 || !IsIdChar(text[p - 1])
  }

  function DigitsEnd(text: string, from: nat): (end: nat)
    requires from <= |text|
    ensures from <= end <= |text| && AllDigits(text[from..end])
    ensures end < |text| ==> !IsDigit(text[end])
    decreases |text| - from
  {
    if from < |text| && IsDigit(text[from]) then DigitsEnd(text, from + 1) else from
  }

  /** The suffix of the part that is named where the parent and its dot occur, if one is. */
  function SuffixAt(text: string, p: nat, length: nat): (suffix: Option<string>)
    requires p + length <= |text|
    ensures suffix.Some? ==> IsSuffix(suffix.value)
  {
    var end := DigitsEnd(text, p + length);
    var suffix := text[p + length..end];
    if LeftFree(text, p) && IsSuffix(suffix) && (end == |text| || !IsIdChar(text[end])) then Some(suffix) else None
  }

  function Needle(parent: string): string {
    Upper(parent) + "."
  }

  /** The suffix, if any, that is named at p. */
  function Added(text: string, needle: string, p: nat): set<string>
    requires Occurs(text, needle, p)
  {
    var suffix := SuffixAt(text, p, |needle|);
    if suffix.Some? then {suffix.value} else {}
  }

  /** The suffixes of the parts named from a position on. */
  function NamedFrom(text: string, needle: string, from: nat): set<string>
    requires needle != []
    decreases |text| - from
  {
    var found := Find(text, needle, from);
    if found.None? then {} else Added(text, needle, found.value) + NamedFrom(text, needle, found.value + |needle|)
  }

  /** The suffixes of all parts that the detail names. */
  function Suffixes(detail: string, parent: string): set<string> {
    NamedFrom(Upper(detail), Needle(parent), 0)
  }

  /** The needle overlaps itself at distance d, and what precedes the second copy is no part of an
      identifier. */
  predicate HidesItself(needle: string, d: nat)
    requires 0 < d < |needle|
  {
    needle[d..] == needle[..|needle| - d] && !IsIdChar(needle[d - 1])
  }

  lemma OverlapHides(text: string, needle: string, found: nat, p: nat)
    requires Occurs(text, needle, found) && Occurs(text, needle, p) && found < p < found + |needle| && LeftFree(text, p)
    ensures HidesItself(needle, p - found)
  {
    var d := p - found;
    assert needle[d..] == text[p..found + |needle|] == needle[..|needle| - d];
    assert needle[d - 1] == text[found..found + |needle|][d - 1] == text[p - 1];
  }

  lemma {:induction false} ScanMissesOnlyHidden(text: string, needle: string, from: nat, p: nat)
    requires needle != [] && from <= p && Occurs(text, needle, p) && LeftFree(text, p)
    requires forall d :: 0 < d < |needle| ==> !HidesItself(needle, d)
    ensures p in Scan(text, needle, from)
    decreases |text| - from
  {
    FindIsFirst(text, needle, from, p);
    var found := Find(text, needle, from).value;
    if found < p {
      if p < found + |needle| {
        OverlapHides(text, needle, found, p);
      } else {
        ScanMissesOnlyHidden(text, needle, found + |needle|, p);
      }
    }
  }

  lemma HiddenIsMissed(needle: string, d: nat)
    requires 0 < d < |needle| && HidesItself(needle, d)
    ensures var text := needle[..d] + needle;
      Occurs(text, needle, d) && LeftFree(text, d) && d !in Scan(text, needle, 0)
  {
    var text := needle[..d] + needle;
    assert text[d..d + |needle|] == needle;
    assert text[..|needle|] == needle[..d] + needle[..|needle| - d] == needle[..d] + needle[d..] == needle;
    assert Find(text, needle, 0) == Some(0);
  }

  ghost predicate ScanIsComplete(needle: string)
    requires needle != []
  {
    forall text, p :: Occurs(text, needle, p) && LeftFree(text, p) ==> p in Scan(text, needle, 0)
  }

  /** The scan reaches every place where the parent begins a word exactly if the needle cannot hide a
      copy of itself. */
  lemma ScanIsCompleteIff(needle: string)
    requires needle != []
    ensures ScanIsComplete(needle) <==> forall d :: 0 < d < |needle| ==> !HidesItself(needle, d)
  {
    if forall d :: 0 < d < |needle| ==> !HidesItself(needle, d) {
      forall text, p | Occurs(text, needle, p) && LeftFree(text, p) ensures p in Scan(text, needle, 0) {
        ScanMissesOnlyHidden(text, needle, 0, p);
      }
    } else {
      var d :| 0 < d < |needle| && HidesItself(needle, d);
      HiddenIsMissed(needle, d);
    }
  }

  /** The parent, a dot and the suffix stand at p as a word of their own. */
  predicate StandsAt(text: string, needle: string, p: nat, suffix: string) {
    var end := p + |needle| + |suffix|;
    && Occurs(text, needle, p) && LeftFree(text, p)
    && end <= |text| && text[p + |needle|..end] == suffix && IsSuffix(suffix)
    && (end == |text| || !IsIdChar(text[end]))
  }

  lemma DigitsEndIs(text: string, from: nat, end: nat)
    requires from <= end <= |text| && AllDigits(text[from..end]) && (end == |text| || !IsDigit(text[end]))
    ensures DigitsEnd(text, from) == end
  {
    var other := DigitsEnd(text, from);
    assert forall i :: from <= i < end ==> text[i] == text[from..end][i - from];
    assert forall i :: from <= i < other ==> text[i] == text[from..other][i - from];
  }

  lemma SuffixStands(text: string, needle: string, p: nat, suffix: string)
    requires Occurs(text, needle, p)
    ensures SuffixAt(text, p, |needle|) == Some(suffix) <==> StandsAt(text, needle, p, suffix)
  {
    if StandsAt(text, needle, p, suffix) {
      DigitsEndIs(text, p + |needle|, p + |needle| + |suffix|);
    }
  }

  lemma {:induction false} NamedWasScanned(text: string, needle: string, from: nat, suffix: string) returns (p: nat)
    requires needle != [] && suffix in NamedFrom(text, needle, from)
    ensures p in Scan(text, needle, from) && SuffixAt(text, p, |needle|) == Some(suffix)
    decreases |text| - from
  {
    p := Find(text, needle, from).value;
    if suffix !in Added(text, needle, p) {
      p := NamedWasScanned(text, needle, p + |needle|, suffix);
    }
  }

  lemma {:induction false} ScannedIsNamed(text: string, needle: string, from: nat, p: nat, suffix: string)
    requires needle != [] && p in Scan(text, needle, from) && SuffixAt(text, p, |needle|) == Some(suffix)
    ensures suffix in NamedFrom(text, needle, from)
    decreases |text| - from
  {
    var first := Find(text, needle, from).value;
    if p != first {
      ScannedIsNamed(text, needle, first + |needle|, p, suffix);
    }
  }

  ghost predicate Stands(detail: string, parent: string, suffix: string) {
    exists p :: StandsAt(Upper(detail), Needle(parent), p, suffix)
  }

  /** Whatever a detail names stands in it; whatever stands in it is named if the scan is complete. */
  lemma NamedIfItStands(detail: string, parent: string, suffix: string)
    ensures suffix in Suffixes(detail, parent) ==> Stands(detail, parent, suffix)
    ensures ScanIsComplete(Needle(parent)) && Stands(detail, parent, suffix) ==> suffix in Suffixes(detail, parent)
  {
    var text, needle := Upper(detail), Needle(parent);
    if suffix in Suffixes(detail, parent) {
      var p := NamedWasScanned(text, needle, 0, suffix);
      SuffixStands(text, needle, p, suffix);
    }
    if ScanIsComplete(needle) && Stands(detail, parent, suffix) {
      var p :| StandsAt(text, needle, p, suffix);
      SuffixStands(text, needle, p, suffix);
      ScannedIsNamed(text, needle, 0, p, suffix);
    }
  }

  // ---------- parts that are missed ----------

  /** A digit other than the character behind the first occurrence in the text below. */
  function OtherDigit(needle: string, d: nat): char
    requires 0 < d < |needle|
  {
    if needle[|needle| - d] == '1' then '2' else '1'
  }

  /** The needle, overlapped by its copy at distance d, and a one-digit suffix behind the copy. */
  function Overlapped(needle: string, d: nat): (text: string)
    requires 0 < d < |needle|
    ensures |text| == d + |needle| + 1 && text[d..d + |needle|] == needle
    ensures text[..d] == needle[..d] && text[d + |needle|] == OtherDigit(needle, d)
  {
    needle[..d] + needle + [OtherDigit(needle, d)]
  }

  lemma OverlappedBegins(needle: string, d: nat)
    requires 0 < d < |needle| && HidesItself(needle, d)
    ensures Occurs(Overlapped(needle, d), needle, 0)
    ensures Overlapped(needle, d)[|needle|] == needle[|needle| - d]
  {
    var text, n := Overlapped(needle, d), |needle|;
    forall i | 0 <= i < n ensures text[i] == needle[i] {
      if i < d {
        assert text[..d][i] == needle[..d][i];
      } else {
        assert text[d..d + n][i - d] == needle[i - d] == needle[..n - d][i - d] == needle[d..][i - d];
      }
    }
    assert text[..n] == needle;
    assert text[d..d + n][n - d] == needle[n - d];
  }

  lemma OccurrenceEnds(text: string, needle: string, p: nat)
    requires needle != [] && Occurs(text, needle, p)
    ensures text[p + |needle| - 1] == needle[|needle| - 1]
  {
    assert text[p..p + |needle|][|needle| - 1] == text[p + |needle| - 1];
  }

  lemma SuffixBegins(text: string, p: nat, length: nat)
    requires p + length <= |text| && SuffixAt(text, p, length).Some?
    ensures p + length < |text| && SuffixAt(text, p, length).value[0] == text[p + length]
  {
    assert text[p + length..DigitsEnd(text, p + length)][0] == text[p + length];
  }

  lemma OverlappedHasNoThird(needle: string, d: nat)
    requires 0 < d < |needle| && needle[|needle| - 1] == '.'
    ensures Find(Overlapped(needle, d), needle, |needle|).None?
  {
    var text, n := Overlapped(needle, d), |needle|;
    if Find(text, needle, n).Some? {
      OccurrenceEnds(text, needle, Find(text, needle, n).value);
    }
  }

  lemma OneDigit(c: char)
    requires '1' <= c <= '9'
    ensures IsSuffix([c])
  {
    assert Number([c][..0]) == 0;
  }

  lemma OverlappedStands(needle: string, d: nat)
    requires 0 < d < |needle| && HidesItself(needle, d)
    ensures StandsAt(Overlapped(needle, d), needle, d, [OtherDigit(needle, d)])
  {
    var text, n := Overlapped(needle, d), |needle|;
    OneDigit(OtherDigit(needle, d));
    assert text[d + n..d + n + 1] == [OtherDigit(needle, d)];
    assert text[..d][d - 1] == needle[..d][d - 1];
  }

  lemma OverlappedIsMissed(needle: string, d: nat)
    requires 0 < d < |needle| && HidesItself(needle, d) && needle[|needle| - 1] == '.'
    ensures [OtherDigit(needle, d)] !in NamedFrom(Overlapped(needle, d), needle, 0)
  {
    var text, n := Overlapped(needle, d), |needle|;
    OverlappedBegins(needle, d);
    OverlappedHasNoThird(needle, d);
    assert Find(text, needle, 0) == Some(0);
    if SuffixAt(text, 0, n) == Some([OtherDigit(needle, d)]) {
      SuffixBegins(text, 0, n);
    }
  }

  lemma OverlappedIsUpper(parent: string, d: nat)
    requires 0 < d < |Needle(parent)|
    ensures Upper(Overlapped(Needle(parent), d)) == Overlapped(Needle(parent), d)
  {
    var needle := Needle(parent);
    forall i | 0 <= i < |needle| ensures UpperChar(needle[i]) == needle[i] {
      assert i < |parent| ==> needle[i] == UpperChar(parent[i]);
    }
  }

  /** For every parent that hides a copy of itself there is a detail in which a part stands and is missed. */
  lemma HiddenPartIsMissed(parent: string, d: nat) returns (detail: string, suffix: string)
    requires 0 < d < |Needle(parent)| && HidesItself(Needle(parent), d)
    ensures detail == Overlapped(Needle(parent), d) && suffix == [OtherDigit(Needle(parent), d)]
    ensures StandsAt(Upper(detail), Needle(parent), d, suffix) && suffix !in Suffixes(detail, parent)
  {
    var needle := Needle(parent);
    detail, suffix := Overlapped(needle, d), [OtherDigit(needle, d)];
    OverlappedIsUpper(parent, d);
    OverlappedStands(needle, d);
    OverlappedIsMissed(needle, d);
  }

  /** Every detail names exactly the parts that stand in it. */
  ghost predicate NamesExactlyWhatStands(parent: string) {
    forall detail, suffix :: suffix in Suffixes(detail, parent) <==> Stands(detail, parent, suffix)
  }

  /** Details name exactly the parts whose identifiers stand in them as words, in any case, if and only
      if the parent hides no copy of itself. */
  lemma NamedExactlyIff(parent: string)
    ensures NamesExactlyWhatStands(parent) <==>
            forall d :: 0 < d < |Needle(parent)| ==> !HidesItself(Needle(parent), d)
  {
    if d :| 0 < d < |Needle(parent)| && HidesItself(Needle(parent), d) {
      var detail, suffix := HiddenPartIsMissed(parent, d);
      assert Stands(detail, parent, suffix);
    } else {
      ScanIsCompleteIff(Needle(parent));
      forall detail, suffix ensures suffix in Suffixes(detail, parent) <==> Stands(detail, parent, suffix) {
        NamedIfItStands(detail, parent, suffix);
      }
    }
  }

  /** Parents of letters, digits and dots, as shipment numbers are, hide no copy. */
  lemma PlainParentsAreFound(parent: string)
    requires forall i :: 0 <= i < |parent| ==> IsIdChar(parent[i])
    ensures NamesExactlyWhatStands(parent)
  {
    NamedExactlyIff(parent);
  }

  /** A part that is missed: the first match of the parent covers the start of the second. */
  lemma DashedParentIsMissed()
    ensures StandsAt(Upper("A.-A.-A.1"), Needle("A.-A"), 3, "1") && "1" !in Suffixes("A.-A.-A.1", "A.-A")
  {
    assert Upper("A.-A") == "A.-A";
    var needle := Needle("A.-A");
    assert needle == "A.-A." && needle[3..] == "A." == needle[..2];
    assert HidesItself(needle, 3);
    var detail, suffix := HiddenPartIsMissed("A.-A", 3);
    assert suffix == "1" && detail == needle[..3] + needle + "1" == "A.-A.-A.1";
  }

  // ---------- the ordered table of known parts ----------

  /** The key of the ordered map. */
  datatype Key = Key(number: nat, upper: string)

  predicate KeyLe(a: Key, b: Key) {
    a.number < b.number || (a.number == b.number && TextLe(a.upper, b.upper))
  }

  function KeyOf(parent: string, suffix: string): Key
    requires IsSuffix(suffix)
  {
    Key(Number(suffix), Upper(Id(parent, suffix)))
  }

  lemma UpperIdIsInjective(parent: string, a: string, b: string)
    requires AllDigits(a) && AllDigits(b) && Upper(Id(parent, a)) == Upper(Id(parent, b))
    ensures a == b
  {
    var ua, ub := Upper(Id(parent, a)), Upper(Id(parent, b));
    assert |ua| == |parent| + 1 + |a| && |ub| == |parent| + 1 + |b|;
    forall i | 0 <= i < |a| ensures a[i] == b[i] {
      assert ua[|parent| + 1 + i] == UpperChar(a[i]) == a[i];
      assert ub[|parent| + 1 + i] == UpperChar(b[i]) == b[i];
    }
  }

  /** The table holds exactly the given suffixes, each under its own key. */
  ghost predicate Tabulates(known: map<Key, string>, parent: string, suffixes: set<string>) {
    && (forall s :: s in suffixes ==>
          IsSuffix(s) && KeyOf(parent, s) in known && known[KeyOf(parent, s)] == Id(parent, s))
    && (forall k :: k in known ==> exists s :: s in suffixes && IsSuffix(s) && KeyOf(parent, s) == k)
  }

  lemma AnotherSuffix(known: map<Key, string>, parent: string, suffixes: set<string>, suffix: string)
    requires Tabulates(known, parent, suffixes) && IsSuffix(suffix)
    ensures KeyOf(parent, suffix) in known <==> suffix in suffixes
    ensures KeyOf(parent, suffix) in known ==> suffixes + {suffix} == suffixes
    ensures Tabulates(known[KeyOf(parent, suffix) := Id(parent, suffix)], parent, suffixes + {suffix})
  {
    var key := KeyOf(parent, suffix);
    if key in known {
      var s :| s in suffixes && IsSuffix(s) && KeyOf(parent, s) == key;
      UpperIdIsInjective(parent, s, suffix);
    }
    var known' := known[key := Id(parent, suffix)];
    forall k | k in known' ensures exists s :: s in suffixes + {suffix} && IsSuffix(s) && KeyOf(parent, s) == k {
      if k in known {
        var s :| s in suffixes && IsSuffix(s) && KeyOf(parent, s) == k;
        assert s in suffixes + {suffix};
      } else {
        assert suffix in suffixes + {suffix};
      }
    }
  }

  lemma UnionInSteps(seen: set<string>, added: set<string>, rest: set<string>, all: set<string>)
    requires seen + (added + rest) == all
    ensures (seen + added) + rest == all
  {
  }

  /** `collect_koli_ids`, for the text and parent in upper case. */
  method CollectMatches(
    text: string, needle: string, parent: string, known: map<Key, string>, ghost suffixes: set<string>)
    returns (known': map<Key, string>)
    requires needle != [] && Tabulates(known, parent, suffixes)
    ensures Tabulates(known', parent, suffixes + NamedFrom(text, needle, 0))
  {
    known' := known;
    var from: nat := 0;
    ghost var seen, rest := suffixes, NamedFrom(text, needle, 0);
    ghost var all := suffixes + rest;
    while Find(text, needle, from).Some?
      invariant Tabulates(known', parent, seen)
      invariant rest == NamedFrom(text, needle, from)
      invariant seen + rest == all
      decreases |text| + |needle| - from
    {
      var next := Find(text, needle, from).value;
      known' := NoteSuffix(text, needle, parent, next, known', seen);
      from := next + |needle|;
      rest := NamedFrom(text, needle, from);
      UnionInSteps(seen, Added(text, needle, next), rest, all);
      seen := seen + Added(text, needle, next);
    }
    assert seen + {} == seen;
  }

  method CollectKoliIds(detail: string, parent: string, known: map<Key, string>, ghost suffixes: set<string>)
    returns (known': map<Key, string>)
    requires Tabulates(known, parent, suffixes)
    ensures Tabulates(known', parent, suffixes + Suffixes(detail, parent))
  {
    known' := CollectMatches(Upper(detail), Needle(parent), parent, known, suffixes);
  }

  /** What one match adds to the table: `or_insert`. */
  method NoteSuffix(text: string, needle: string, parent: string, start: nat, known: map<Key, string>,
                    ghost suffixes: set<string>)
    returns (known': map<Key, string>)
    requires Occurs(text, needle, start) && Tabulates(known, parent, suffixes)
    ensures Tabulates(known', parent, suffixes + Added(text, needle, start))
  {
    known' := known;
    if start > 0 && IsIdChar(text[start - 1]) {
      assert suffixes + {} == suffixes;
      return;
    }
    var end := DigitsEnd(text, start + |needle|);
    var suffix := text[start + |needle|..end];
    if suffix == [] || (end < |text| && IsIdChar(text[end])) || Number(suffix) > U32_MAX || Number(suffix) == 0 {
      assert suffixes + {} == suffixes;
      return;
    }
    AnotherSuffix(known, parent, suffixes, suffix);
    if KeyOf(parent, suffix) !in known {
      known' := known[KeyOf(parent, suffix) := Id(parent, suffix)];
    }
  }

  // ---------- the parts in order ----------

  predicate KeyLt(a: Key, b: Key) {
    KeyLe(a, b) && a != b
  }

  lemma KeyLeOrder(a: Key, b: Key, c: Key)
    ensures KeyLe(a, b) || KeyLe(b, a)
    ensures KeyLe(a, b) && KeyLe(b, a) ==> a == b
    ensures KeyLe(a, b) && KeyLe(b, c) ==> KeyLe(a, c)
  {
    TextLeTotal(a.upper, b.upper);
    if KeyLe(a, b) && KeyLe(b, c) && a.number == c.number {
      TextLeTransitive(a.upper, b.upper, c.upper);
    }
  }

  ghost predicate Increasing(keys: seq<Key>) {
    forall i, j :: 0 <= i < j < |keys| ==> KeyLt(keys[i], keys[j])
  }

  method LeastKey(keys: set<Key>) returns (least: Key)
    requires keys != {}
    ensures least in keys && forall k :: k in keys ==> KeyLe(least, k)
  {
    var rest := keys;
    least :| least in rest;
    KeyLeOrder(least, least, least);
    rest := rest - {least};
    while rest != {}
      invariant least in keys && rest <= keys
      invariant forall k :: k in keys && k !in rest ==> KeyLe(least, k)
      decreases |rest|
    {
      var k :| k in rest;
      rest := rest - {k};
      if !KeyLe(least, k) {
        forall j | j in keys && j !in rest ensures KeyLe(k, j) {
          KeyLeOrder(k, least, j);
          KeyLeOrder(k, k, k);
        }
        least := k;
      }
    }
  }

  /** The keys in the order of the ordered map. */
  method InOrder(keys: set<Key>) returns (ordered: seq<Key>)
    ensures Increasing(ordered) && forall k :: k in ordered <==> k in keys
  {
    var rest := keys;
    ordered := [];
    while rest != {}
      invariant rest <= keys && Increasing(ordered)
      invariant forall k :: k in ordered <==> k in keys && k !in rest
      invariant forall k, l :: k in ordered && l in rest ==> KeyLt(k, l)
      decreases |rest|
    {
      var least := LeastKey(rest);
      rest := rest - {least};
      ordered := ordered + [least];
    }
  }

  /** Two increasing lists of the same keys are the same list. */
  lemma {:induction false} IncreasingListsAgree(a: seq<Key>, b: seq<Key>)
    requires Increasing(a) && Increasing(b) && forall k :: k in a <==> k in b
    ensures a == b
  {
    if a == [] {
      assert forall i :: 0 <= i < |b| ==> b[i] in b;
    } else {
      assert a[0] in b && b[0] in a;
      KeyLeOrder(a[0], b[0], b[0]);
      assert a[0] == b[0];
      forall k ensures k in a[1..] <==> k in b[1..] {
        assert k in a[1..] <==> k in a && k != a[0];
        assert k in b[1..] <==> k in b && k != b[0];
      }
      IncreasingListsAgree(a[1..], b[1..]);
      assert a == [a[0]] + a[1..] && b == [b[0]] + b[1..];
    }
  }

  // ---------- the latest status of a part ----------

  const PARTIALLY_DELIVERED := "PARTIALLY_DELIVERED"
  const IN_PROGRESS := "IN_PROGRESS"

  predicate Contains(text: string, phrase: string)
    requires phrase != []
  {
    Find(text, phrase, 0).Some?
  }

  function InferKoliStatus(detail: string): (status: Option<string>)
    ensures status != Some(PARTIALLY_DELIVERED) && status != Some(IN_PROGRESS)
  {
    var text := Lower(detail);
    if Contains(text, "failedtodelivered") || Contains(text, "gagal antar") || Contains(text, "gagal diantar") then
      Some("FAILEDTODELIVERED")
    else if Contains(text, "telah diantar") || Contains(text, "status delivered") then Some(DELIVERED)
    else if Contains(text, "deliveryrunsheet") then Some("DELIVERYRUNSHEET")
    else if Contains(text, "manifest r7") || Contains(text, "manifestr7") then Some("MANIFEST_R7")
    else if Contains(text, "unbagging") then Some("UNBAGGING")
    else if Contains(text, "bagging") then Some("BAGGING")
    else if Contains(text, "receiving") then Some("RECEIVING")
    else None
  }

  ghost predicate Says(text: string, phrase: string) {
    exists p: nat :: Occurs(text, phrase, p)
  }

  lemma ContainsIff(text: string, phrase: string)
    requires phrase != []
    ensures Contains(text, phrase) <==> Says(text, phrase)
  {
    if Says(text, phrase) {
      var p: nat :| Occurs(text, phrase, p);
      FindIsFirst(text, phrase, 0, p);
    }
  }

  /** The phrases that tell a status, the strongest first: a failed delivery is never read as a delivery,
      whatever else the entry says, nor an unbagging as a bagging. */
  lemma StatusOfPhrases(detail: string, says: seq<string>)
    requires says == [
      "failedtodelivered", "gagal antar", "gagal diantar", "telah diantar", "status delivered",
      "deliveryrunsheet", "manifest r7", "manifestr7", "unbagging", "bagging", "receiving" ]
    ensures var text, status := Lower(detail), InferKoliStatus(detail);
      var failed := Says(text, says[0]) || Says(text, says[1]) || Says(text, says[2]);
      var delivered := Says(text, says[3]) || Says(text, says[4]);
      var manifest := Says(text, says[6]) || Says(text, says[7]);
      && (failed ==> status == Some("FAILEDTODELIVERED"))
      && (!failed && delivered ==> status == Some("DELIVERED"))
      && (!failed && !delivered && Says(text, says[5]) ==> status == Some("DELIVERYRUNSHEET"))
      && (!failed && !delivered && !Says(text, says[5]) ==>
            && (manifest ==> status == Some("MANIFEST_R7"))
            && (!manifest && Says(text, says[8]) ==> status == Some("UNBAGGING"))
            && (!manifest && !Says(text, says[8]) && Says(text, says[9]) ==> status == Some("BAGGING"))
            && (!manifest && !Says(text, says[8]) && !Says(text, says[9]) ==>
                  status == if Says(text, says[10]) then Some("RECEIVING") else None))
  {
    forall i | 0 <= i < |says| ensures Contains(Lower(detail), says[i]) <==> Says(Lower(detail), says[i]) {
      ContainsIff(Lower(detail), says[i]);
    }
  }

  /** `history_mentions_koli`. */
  method MentionsKoli(detail: string, id: string) returns (mentions: bool)
    ensures mentions <==>
      var split := SplitKoliId(id); split.Some? && split.value.suffix in Suffixes(detail, split.value.parent)
  {
    var split := SplitKoliId(id);
    if split.None? {
      return false;
    }
    var parent, suffix := split.value.parent, split.value.suffix;
    var found := CollectKoliIds(detail, parent, map[], {});
    assert {} + Suffixes(detail, parent) == Suffixes(detail, parent);
    mentions := exists key :: key in found && Upper(found[key]) == Upper(id);
    if mentions {
      var key :| key in found && Upper(found[key]) == Upper(id);
      var s :| s in Suffixes(detail, parent) && IsSuffix(s) && KeyOf(parent, s) == key;
      UpperIdIsInjective(parent, s, suffix);
    }
  }

  /** The entry says something about the part's status. */
  predicate IsEvidence(e: Entry, parent: string, suffix: string) {
    suffix in Suffixes(e.detail, parent) && InferKoliStatus(e.detail).Some?
  }

  /** Which of the entries are evidence. */
  function EvidenceIn(h: seq<Entry>, parent: string, suffix: string): (told: seq<bool>)
    ensures |told| == |h|
  {
    if h == [] then [] else EvidenceIn(h[..|h| - 1], parent, suffix) + [IsEvidence(h[|h| - 1], parent, suffix)]
  }

  lemma {:induction false} EvidenceAt(h: seq<Entry>, parent: string, suffix: string, k: nat)
    requires k < |h|
    ensures EvidenceIn(h, parent, suffix)[k] == IsEvidence(h[k], parent, suffix)
  {
    if k < |h| - 1 {
      EvidenceAt(h[..|h| - 1], parent, suffix, k);
    }
  }

  /** `max_by` on the time among the first n entries. */
  function LatestIndex(h: seq<Entry>, told: seq<bool>, n: nat): (k: Option<nat>)
    requires n <= |h| == |told|
    ensures k.Some? ==> k.value < n
  {
    if n == 0 then None else
      var k := LatestIndex(h, told, n - 1);
      if told[n - 1] && (k.None? || TextLe(h[k.value].at, h[n - 1].at)) then Some(n - 1) else k
  }

  /** It is the last of the latest entries that are evidence. */
  lemma {:induction false} LatestIndexIsLatest(h: seq<Entry>, told: seq<bool>, n: nat)
    requires n <= |h| == |told|
    ensures var k := LatestIndex(h, told, n);
      && (k.None? ==> forall j :: 0 <= j < n ==> !told[j])
      && (k.Some? ==>
            && told[k.value]
            && (forall j :: 0 <= j < n && told[j] ==> TextLe(h[j].at, h[k.value].at))
            && (forall j :: k.value < j < n && told[j] ==> h[j].at != h[k.value].at))
  {
    if n > 0 {
      LatestIndexIsLatest(h, told, n - 1);
      TextLeTotal(h[n - 1].at, h[n - 1].at);
      var k := LatestIndex(h, told, n - 1);
      if k.Some? && told[n - 1] {
        TextLeTotal(h[k.value].at, h[n - 1].at);
        forall j | 0 <= j < n - 1 && told[j] && TextLe(h[k.value].at, h[n - 1].at)
          ensures TextLe(h[j].at, h[n - 1].at)
        {
          TextLeTransitive(h[j].at, h[k.value].at, h[n - 1].at);
        }
      }
    }
  }

  function Latest(h: seq<Entry>, parent: string, suffix: string): Option<Entry> {
    var k := LatestIndex(h, EvidenceIn(h, parent, suffix), |h|);
    if k.None? then None else Some(h[k.value])
  }

  /** The filters: which entries mention the part and tell a status. */
  method FilterEvidence(h: seq<Entry>, id: string, ghost parent: string, ghost suffix: string)
    returns (told: seq<bool>)
    requires parent != [] && IsSuffix(suffix) && id == Id(parent, suffix)
    ensures told == EvidenceIn(h, parent, suffix)
  {
    SplitRecovers(parent, suffix);
    told := [];
    for i := 0 to |h|
      invariant told == EvidenceIn(h[..i], parent, suffix)
    {
      assert h[..i + 1][..i] == h[..i];
      var mentioned := MentionsKoli(h[i].detail, id);
      told := told + [mentioned && InferKoliStatus(h[i].detail).Some?];
    }
    assert h[..|h|] == h;
  }

  method LatestStatus(h: seq<Entry>, id: string, ghost parent: string, ghost suffix: string)
    returns (latest: Option<Entry>)
    requires parent != [] && IsSuffix(suffix) && id == Id(parent, suffix)
    ensures latest == Latest(h, parent, suffix)
  {
    var told := FilterEvidence(h, id, parent, suffix);
    var k: Option<nat> := None;
    for i := 0 to |h|
      invariant k == LatestIndex(h, told, i)
    {
      if told[i] && (k.None? || TextLe(h[k.value].at, h[i].at)) {
        k := Some(i);
      }
    }
    latest := if k.None? then None else Some(h[k.value]);
  }

  // ---------- the parts of a shipment ----------

  datatype Koli = Koli(
    id: string, number: nat, status: Option<string>, location: Option<string>, at: Option<string>,
    hasProof: bool, evidence: Option<Entry>)

  /** What the shipment's own final status adds: where it ended, and how a location reads in a detail. */
  datatype Context = Context(finalLocation: Option<string>, locationIn: string -> Option<string>)

  function Describe(id: string, number: nat, latest: Option<Entry>, context: Context): Koli {
    var status := if latest.Some? then InferKoliStatus(latest.value.detail) else None;
    var hasProof := status == Some(DELIVERED);
    var told := if latest.Some? then context.locationIn(latest.value.detail) else None;
    var location := if told.None? && hasProof then context.finalLocation else told;
    Koli(id, number, status, location, if latest.Some? then Some(latest.value.at) else None, hasProof, latest)
  }

  function Part(h: seq<Entry>, parent: string, suffix: string, context: Context): Koli
    requires IsSuffix(suffix)
  {
    Describe(Id(parent, suffix), Number(suffix), Latest(h, parent, suffix), context)
  }

  function KeysOf(koli: seq<Koli>): (keys: seq<Key>)
    ensures |keys| == |koli|
    ensures forall i :: 0 <= i < |koli| ==> keys[i] == Key(koli[i].number, Upper(koli[i].id))
  {
    seq(|koli|, i requires 0 <= i < |koli| => Key(koli[i].number, Upper(koli[i].id)))
  }

  ghost predicate IsPart(h: seq<Entry>, parent: string, suffixes: set<string>, context: Context, k: Koli) {
    exists s :: s in suffixes && IsSuffix(s) && k == Part(h, parent, s, context)
  }

  /** The list has the part of every suffix and nothing else, in the order of number and identifier. */
  ghost predicate ArePartsOf(h: seq<Entry>, parent: string, suffixes: set<string>, context: Context, koli: seq<Koli>) {
    && Increasing(KeysOf(koli))
    && (forall s :: s in suffixes ==> IsSuffix(s) && Part(h, parent, s, context) in koli)
    && (forall i :: 0 <= i < |koli| ==> IsPart(h, parent, suffixes, context, koli[i]))
  }

  /** What the list says of a part rests on the last of the latest entries that name it and tell a status.
      Without one nothing is known; the shipment's final location stands in for a delivered part whose entry
      names none. */
  lemma PartTells(h: seq<Entry>, parent: string, suffix: string, context: Context) returns (k: nat)
    requires IsSuffix(suffix)
    ensures var part := Part(h, parent, suffix, context);
      part.id == parent + "." + suffix && part.number == Number(suffix)
    ensures var part := Part(h, parent, suffix, context);
      if k == |h| then
        && (forall j :: 0 <= j < |h| ==> !IsEvidence(h[j], parent, suffix))
        && part.status.None? && part.location.None? && part.at.None? && part.evidence.None? && !part.hasProof
      else
        && k < |h| && IsEvidence(h[k], parent, suffix)
        && (forall j :: 0 <= j < |h| && IsEvidence(h[j], parent, suffix) ==>
              TextLe(h[j].at, h[k].at) && (j > k ==> h[j].at != h[k].at))
        && part.evidence == Some(h[k]) && part.at == Some(h[k].at) && part.status == InferKoliStatus(h[k].detail)
        && (part.hasProof <==> part.status == Some("DELIVERED"))
        && var told := context.locationIn(h[k].detail);
           part.location == if told.Some? || !part.hasProof then told else context.finalLocation
  {
    var told := EvidenceIn(h, parent, suffix);
    var latest := LatestIndex(h, told, |h|);
    LatestIndexIsLatest(h, told, |h|);
    forall j | 0 <= j < |h| ensures told[j] == IsEvidence(h[j], parent, suffix) {
      EvidenceAt(h, parent, suffix, j);
    }
    k := if latest.Some? then latest.value else |h|;
  }

  // ---------- when order matters ----------

  lemma LatestIsAmong(h: seq<Entry>, parent: string, suffix: string)
    ensures Latest(h, parent, suffix).None? ==> forall e :: e in h ==> !IsEvidence(e, parent, suffix)
    ensures Latest(h, parent, suffix).Some? ==> IsLatestEvidence(h, parent, suffix, Latest(h, parent, suffix).value)
  {
    var told := EvidenceIn(h, parent, suffix);
    LatestIndexIsLatest(h, told, |h|);
    forall k | 0 <= k < |h| ensures told[k] == IsEvidence(h[k], parent, suffix) {
      EvidenceAt(h, parent, suffix, k);
    }
  }

  /** The entry is evidence, and no other evidence is later. */
  ghost predicate IsLatestEvidence(h: seq<Entry>, parent: string, suffix: string, e: Entry) {
    && e in h && IsEvidence(e, parent, suffix)
    && forall f :: f in h && IsEvidence(f, parent, suffix) ==> TextLe(f.at, e.at)
  }

  /** All the latest evidence is one entry. */
  ghost predicate OneLatest(h: seq<Entry>, parent: string, suffix: string) {
    forall d, e :: IsLatestEvidence(h, parent, suffix, d) && IsLatestEvidence(h, parent, suffix, e) ==> d == e
  }

  lemma SameEntries(h: seq<Entry>, h': seq<Entry>)
    requires multiset(h) == multiset(h')
    ensures forall e :: e in h <==> e in h'
  {
    forall e ensures e in h <==> e in h' {
      assert e in h <==> e in multiset(h);
      assert e in h' <==> e in multiset(h');
    }
  }

  lemma LatestEvidenceMoves(h: seq<Entry>, h': seq<Entry>, parent: string, suffix: string, e: Entry)
    requires multiset(h) == multiset(h') && IsLatestEvidence(h', parent, suffix, e)
    ensures IsLatestEvidence(h, parent, suffix, e)
  {
    SameEntries(h, h');
  }

  lemma NoEvidenceMoves(h: seq<Entry>, h': seq<Entry>, parent: string, suffix: string)
    requires multiset(h) == multiset(h')
    ensures Latest(h, parent, suffix).None? <==> Latest(h', parent, suffix).None?
  {
    SameEntries(h, h');
    LatestIsAmong(h, parent, suffix);
    LatestIsAmong(h', parent, suffix);
  }

  lemma LatestIgnoresOrder(h: seq<Entry>, h': seq<Entry>, parent: string, suffix: string)
    requires multiset(h) == multiset(h') && OneLatest(h, parent, suffix)
    ensures Latest(h, parent, suffix) == Latest(h', parent, suffix)
  {
    NoEvidenceMoves(h, h', parent, suffix);
    if Latest(h', parent, suffix).Some? {
      LatestIsAmong(h, parent, suffix);
      LatestIsAmong(h', parent, suffix);
      LatestEvidenceMoves(h, h', parent, suffix, Latest(h', parent, suffix).value);
    }
  }

  function MovedLast(h: seq<Entry>, k: nat): (moved: seq<Entry>)
    requires k < |h|
    ensures |moved| == |h| && moved[|h| - 1] == h[k]
  {
    h[..k] + h[k + 1..] + [h[k]]
  }

  lemma MovedHasTheSameEntries(h: seq<Entry>, k: nat)
    requires k < |h|
    ensures multiset(MovedLast(h, k)) == multiset(h)
  {
    assert h == h[..k] + [h[k]] + h[k + 1..];
  }

  lemma LastLatestCounts(h: seq<Entry>, parent: string, suffix: string)
    requires h != [] && IsLatestEvidence(h, parent, suffix, h[|h| - 1])
    ensures Latest(h, parent, suffix) == Some(h[|h| - 1])
  {
    var n, told := |h| - 1, EvidenceIn(h, parent, suffix);
    EvidenceAt(h, parent, suffix, n);
    var before := LatestIndex(h, told, n);
    LatestIndexIsLatest(h, told, n);
    if before.Some? {
      EvidenceAt(h, parent, suffix, before.value);
      assert h[before.value] in h;
    }
  }

  /** Whichever of the latest evidence is listed last counts. */
  lemma MovedLastCounts(h: seq<Entry>, parent: string, suffix: string, k: nat)
    requires k < |h| && IsLatestEvidence(h, parent, suffix, h[k])
    ensures multiset(MovedLast(h, k)) == multiset(h) && Latest(MovedLast(h, k), parent, suffix) == Some(h[k])
  {
    MovedHasTheSameEntries(h, k);
    SameEntries(h, MovedLast(h, k));
    LastLatestCounts(MovedLast(h, k), parent, suffix);
  }

  ghost predicate IgnoresOrder(h: seq<Entry>, parent: string, suffix: string) {
    forall h' :: multiset(h') == multiset(h) ==> Latest(h', parent, suffix) == Latest(h, parent, suffix)
  }

  /** The order of a history makes no difference to a part if and only if all its latest evidence is one
      entry; ties among other entries do not matter. */
  lemma OrderMattersIff(h: seq<Entry>, parent: string, suffix: string)
    ensures IgnoresOrder(h, parent, suffix) <==> OneLatest(h, parent, suffix)
  {
    if OneLatest(h, parent, suffix) {
      forall h' | multiset(h') == multiset(h) ensures Latest(h', parent, suffix) == Latest(h, parent, suffix) {
        LatestIgnoresOrder(h, h', parent, suffix);
      }
    } else {
      var d, e :| IsLatestEvidence(h, parent, suffix, d) && IsLatestEvidence(h, parent, suffix, e) && d != e;
      var j :| 0 <= j < |h| && h[j] == d;
      var k :| 0 <= k < |h| && h[k] == e;
      MovedLastCounts(h, parent, suffix, j);
      MovedLastCounts(h, parent, suffix, k);
    }
  }

  /** Different times are enough. */
  lemma DifferentTimesAreEnough(h: seq<Entry>, parent: string, suffix: string)
    requires forall d, e :: d in h && e in h && d.at == e.at ==> d == e
    ensures OneLatest(h, parent, suffix)
  {
    forall d, e | IsLatestEvidence(h, parent, suffix, d) && IsLatestEvidence(h, parent, suffix, e) ensures d == e {
      TextLeTotal(d.at, e.at);
    }
  }

  /** The suffixes known for a shipment: its own, if a part was asked for, and all that entries name. */
  function KnownSuffixes(h: seq<Entry>, parent: string, own: set<string>): set<string> {
    if h == [] then own
    else KnownSuffixes(h[..|h| - 1], parent, own) + Suffixes(h[|h| - 1].detail, parent)
  }

  lemma {:induction false} KnownIsNamedSomewhere(h: seq<Entry>, parent: string, own: set<string>, suffix: string)
    ensures suffix in KnownSuffixes(h, parent, own) <==>
            suffix in own || exists e :: e in h && suffix in Suffixes(e.detail, parent)
  {
    if h != [] {
      var init := h[..|h| - 1];
      KnownIsNamedSomewhere(init, parent, own, suffix);
      assert h == init + [h[|h| - 1]];
    }
  }

  lemma KnownIgnoresOrder(h: seq<Entry>, h': seq<Entry>, parent: string, own: set<string>)
    requires multiset(h) == multiset(h')
    ensures KnownSuffixes(h, parent, own) == KnownSuffixes(h', parent, own)
  {
    SameEntries(h, h');
    forall s ensures s in KnownSuffixes(h, parent, own) <==> s in KnownSuffixes(h', parent, own) {
      KnownIsNamedSomewhere(h, parent, own, s);
      KnownIsNamedSomewhere(h', parent, own, s);
    }
  }

  lemma SuffixOfPart(h: seq<Entry>, parent: string, suffixes: set<string>, context: Context, koli: seq<Koli>, i: nat)
    returns (s: string)
    requires ArePartsOf(h, parent, suffixes, context, koli) && i < |koli|
    ensures s in suffixes && IsSuffix(s) && koli[i] == Part(h, parent, s, context)
    ensures KeysOf(koli)[i] == KeyOf(parent, s)
  {
    assert IsPart(h, parent, suffixes, context, koli[i]);
    s :| s in suffixes && IsSuffix(s) && koli[i] == Part(h, parent, s, context);
  }

  lemma KeysAreThoseOfSuffixes(
    h: seq<Entry>, parent: string, suffixes: set<string>, context: Context, koli: seq<Koli>, k: Key)
    requires ArePartsOf(h, parent, suffixes, context, koli)
    ensures k in KeysOf(koli) <==> exists s :: s in suffixes && IsSuffix(s) && KeyOf(parent, s) == k
  {
    if k in KeysOf(koli) {
      var i :| 0 <= i < |koli| && KeysOf(koli)[i] == k;
      var s := SuffixOfPart(h, parent, suffixes, context, koli, i);
    }
    if s :| s in suffixes && IsSuffix(s) && KeyOf(parent, s) == k {
      var i :| 0 <= i < |koli| && koli[i] == Part(h, parent, s, context);
      assert KeysOf(koli)[i] == k;
    }
  }

  lemma SamePart(h: seq<Entry>, h': seq<Entry>, parent: string, s: string, t: string, context: Context)
    requires multiset(h) == multiset(h') && OneLatest(h, parent, s)
    requires IsSuffix(s) && IsSuffix(t) && KeyOf(parent, s) == KeyOf(parent, t)
    ensures Part(h, parent, s, context) == Part(h', parent, t, context)
  {
    UpperIdIsInjective(parent, s, t);
    LatestIgnoresOrder(h, h', parent, s);
  }

  lemma SameKeys(
    h: seq<Entry>, h': seq<Entry>, parent: string, suffixes: set<string>, context: Context, a: seq<Koli>, b: seq<Koli>)
    requires ArePartsOf(h, parent, suffixes, context, a) && ArePartsOf(h', parent, suffixes, context, b)
    ensures KeysOf(a) == KeysOf(b)
  {
    forall k ensures k in KeysOf(a) <==> k in KeysOf(b) {
      KeysAreThoseOfSuffixes(h, parent, suffixes, context, a, k);
      KeysAreThoseOfSuffixes(h', parent, suffixes, context, b, k);
    }
    IncreasingListsAgree(KeysOf(a), KeysOf(b));
  }

  lemma PartsIgnoreOrder(
    h: seq<Entry>, h': seq<Entry>, parent: string, suffixes: set<string>, context: Context, a: seq<Koli>, b: seq<Koli>)
    requires multiset(h) == multiset(h') && forall s :: s in suffixes ==> OneLatest(h, parent, s)
    requires ArePartsOf(h, parent, suffixes, context, a) && ArePartsOf(h', parent, suffixes, context, b)
    ensures a == b
  {
    SameKeys(h, h', parent, suffixes, context, a, b);
    assert |KeysOf(a)| == |a| && |KeysOf(b)| == |b|;
    forall i | 0 <= i < |a| ensures a[i] == b[i] {
      var s := SuffixOfPart(h, parent, suffixes, context, a, i);
      var t := SuffixOfPart(h', parent, suffixes, context, b, i);
      SamePart(h, h', parent, s, t, context);
    }
  }

  /** The order in which a history lists its entries makes no difference to the parts, their statuses or
      their order, if all the latest evidence of each part is one entry. */
  lemma OrderChangesNothing(
    h: seq<Entry>, h': seq<Entry>, parent: string, own: set<string>, context: Context, a: seq<Koli>, b: seq<Koli>)
    requires multiset(h) == multiset(h')
    requires forall s :: s in KnownSuffixes(h, parent, own) ==> OneLatest(h, parent, s)
    requires ArePartsOf(h, parent, KnownSuffixes(h, parent, own), context, a)
    requires ArePartsOf(h', parent, KnownSuffixes(h', parent, own), context, b)
    ensures a == b
  {
    KnownIgnoresOrder(h, h', parent, own);
    PartsIgnoreOrder(h, h', parent, KnownSuffixes(h, parent, own), context, a, b);
  }

  /** So permuting a history whose entries of one time are one entry changes nothing. */
  lemma DistinctTimesIgnoreOrder(
    h: seq<Entry>, h': seq<Entry>, parent: string, own: set<string>, context: Context, a: seq<Koli>, b: seq<Koli>)
    requires multiset(h) == multiset(h')
    requires forall d, e :: d in h && e in h && d.at == e.at ==> d == e
    requires ArePartsOf(h, parent, KnownSuffixes(h, parent, own), context, a)
    requires ArePartsOf(h', parent, KnownSuffixes(h', parent, own), context, b)
    ensures a == b
  {
    forall s | s in KnownSuffixes(h, parent, own) ensures OneLatest(h, parent, s) {
      DifferentTimesAreEnough(h, parent, s);
    }
    OrderChangesNothing(h, h', parent, own, context, a, b);
  }

  /** And only then: otherwise some order shows another evidence for some part. */
  lemma OrderChangesSomething(h: seq<Entry>, parent: string, own: set<string>, context: Context, s: string)
    returns (h': seq<Entry>)
    requires s in KnownSuffixes(h, parent, own) && IsSuffix(s) && !OneLatest(h, parent, s)
    ensures multiset(h') == multiset(h) && s in KnownSuffixes(h', parent, own)
    ensures Part(h', parent, s, context) != Part(h, parent, s, context)
  {
    OrderMattersIff(h, parent, s);
    h' :| multiset(h') == multiset(h) && Latest(h', parent, s) != Latest(h, parent, s);
    KnownIgnoresOrder(h, h', parent, own);
  }

  // ---------- the status of the whole ----------

  function CountProofs(koli: seq<Koli>): (count: nat)
    ensures count <= |koli|
  {
    if koli == [] then 0 else CountProofs(koli[..|koli| - 1]) + if koli[|koli| - 1].hasProof then 1 else 0
  }

  lemma {:induction false} CountProofsMeans(koli: seq<Koli>)
    ensures CountProofs(koli) == |koli| <==> forall i :: 0 <= i < |koli| ==> koli[i].hasProof
    ensures CountProofs(koli) == 0 <==> forall i :: 0 <= i < |koli| ==> !koli[i].hasProof
  {
    if koli != [] {
      CountProofsMeans(koli[..|koli| - 1]);
    }
  }

  function AggregateKoliStatus(koli: seq<Koli>): Option<string> {
    if |koli| <= 1 then None
    else if CountProofs(koli) == |koli| then Some(DELIVERED)
    else if CountProofs(koli) > 0 then Some(PARTIALLY_DELIVERED)
    else if forall i :: 0 <= i < |koli| ==> koli[i].status.None? then None
    else if koli[0].status.Some? && forall i :: 0 <= i < |koli| ==> koli[i].status == koli[0].status then koli[0].status
    else Some(IN_PROGRESS)
  }

  ghost predicate AllProven(koli: seq<Koli>) {
    forall i :: 0 <= i < |koli| ==> koli[i].hasProof
  }

  ghost predicate NoneProven(koli: seq<Koli>) {
    forall i :: 0 <= i < |koli| ==> !koli[i].hasProof
  }

  ghost predicate NoStatus(koli: seq<Koli>) {
    forall i :: 0 <= i < |koli| ==> koli[i].status.None?
  }

  ghost predicate SameStatus(koli: seq<Koli>) {
    forall i, j :: 0 <= i < j < |koli| ==> koli[i].status == koli[j].status
  }

  /** Proof of delivery is the status "delivered", and no part has one of the aggregate's own statuses. */
  ghost predicate StatusesAreInferred(koli: seq<Koli>) {
    && (forall i :: 0 <= i < |koli| ==> (koli[i].hasProof <==> koli[i].status == Some(DELIVERED)))
    && (forall i :: 0 <= i < |koli| ==>
          koli[i].status != Some(PARTIALLY_DELIVERED) && koli[i].status != Some(IN_PROGRESS))
  }

  lemma PartsHaveInferredStatuses(
    h: seq<Entry>, parent: string, suffixes: set<string>, context: Context, koli: seq<Koli>)
    requires ArePartsOf(h, parent, suffixes, context, koli)
    ensures StatusesAreInferred(koli)
  {
    forall i | 0 <= i < |koli|
      ensures koli[i].hasProof <==> koli[i].status == Some(DELIVERED)
      ensures koli[i].status != Some(PARTIALLY_DELIVERED) && koli[i].status != Some(IN_PROGRESS)
    {
      var s := SuffixOfPart(h, parent, suffixes, context, koli, i);
      StatusIsInferred(Id(parent, s), Number(s), Latest(h, parent, s), context);
    }
  }

  lemma StatusIsInferred(id: string, number: nat, latest: Option<Entry>, context: Context)
    ensures var k := Describe(id, number, latest, context);
      && (k.hasProof <==> k.status == Some(DELIVERED))
      && k.status != Some(PARTIALLY_DELIVERED) && k.status != Some(IN_PROGRESS)
  {
  }

  /** The aggregate is "delivered" exactly if there are two parts or more, all with proof; "partially
      delivered" exactly if some but not all have it; "in progress" exactly if none has and their
      statuses differ, and else the one that they share; absent exactly if there is one part at most or no
      status at all. */
  lemma AggregateMeans(koli: seq<Koli>)
    requires StatusesAreInferred(koli)
    ensures AggregateKoliStatus(koli) == Some(DELIVERED) <==> |koli| >= 2 && AllProven(koli)
    ensures AggregateKoliStatus(koli) == Some(PARTIALLY_DELIVERED) <==>
              |koli| >= 2 && !NoneProven(koli) && !AllProven(koli)
    ensures AggregateKoliStatus(koli) == Some(IN_PROGRESS) <==> |koli| >= 2 && NoneProven(koli) && !SameStatus(koli)
    ensures AggregateKoliStatus(koli).None? <==> |koli| <= 1 || NoStatus(koli)
    ensures |koli| >= 2 && NoneProven(koli) && SameStatus(koli) ==> AggregateKoliStatus(koli) == koli[0].status
  {
    CountProofsMeans(koli);
    if |koli| >= 2 && !AllProven(koli) && NoneProven(koli) {
      assert SameStatus(koli) <==> forall i :: 0 <= i < |koli| ==> koli[i].status == koli[0].status by {
        if forall i :: 0 <= i < |koli| ==> koli[i].status == koli[0].status {
          assert SameStatus(koli);
        }
      }
    }
  }

  // ---------- the operation ----------

  datatype Identity = Identity(requested: Option<string>, parent: Option<string>, isKoli: bool, number: Option<nat>)

  datatype MultiKoli = MultiKoli(
    isMultiKoli: bool, count: nat, ids: seq<string>, aggregate: Option<string>, koli: seq<Koli>)

  const SINGLE := MultiKoli(false, 1, [], None, [])

  function NonEmpty(s: string): Option<string> {
    if s == [] then None else Some(s)
  }

  /** The requested number, or the one in the header if none was requested. */
  function EffectiveId(requested: string, inHeader: Option<string>): string {
    if Trim(requested) != [] then Trim(requested) else Trim(if inHeader.Some? then inHeader.value else "")
  }

  function ParentOf(id: string): string {
    var split := SplitKoliId(id);
    if split.Some? then split.value.parent else id
  }

  function OwnSuffixes(id: string): set<string> {
    var split := SplitKoliId(id);
    if split.Some? then {split.value.suffix} else {}
  }

  /** What the split makes of the number: a part's parent and suffix, if it reads as a part at all. */
  lemma ParentIs(id: string, parent: string, suffix: string)
    requires parent != [] && IsSuffix(suffix)
    ensures id == parent + "." + suffix ==> ParentOf(id) == parent && OwnSuffixes(id) == {suffix}
    ensures OwnSuffixes(id) == {} ==> ParentOf(id) == id && id != parent + "." + suffix
  {
    SplitRecovers(parent, suffix);
  }

  /** The parts known for a number: the part it names itself, and those that some entry names. */
  lemma KnownAre(h: seq<Entry>, id: string, suffix: string)
    ensures suffix in KnownSuffixes(h, ParentOf(id), OwnSuffixes(id)) <==>
      || (exists parent :: parent != [] && IsSuffix(suffix) && id == Id(parent, suffix))
      || (exists e :: e in h && suffix in Suffixes(e.detail, ParentOf(id)))
  {
    KnownIsNamedSomewhere(h, ParentOf(id), OwnSuffixes(id), suffix);
    if parent :| parent != [] && IsSuffix(suffix) && id == Id(parent, suffix) {
      SplitRecovers(parent, suffix);
    }
    if suffix in OwnSuffixes(id) {
      assert ParentOf(id) != [] && IsSuffix(suffix) && id == Id(ParentOf(id), suffix);
    }
  }

  predicate IsBlank(s: string) {
    forall i :: 0 <= i < |s| ==> IsSpace(s[i])
  }

  /** A request that says anything goes before the header; spaces around the number do not count. */
  lemma RequestGoesFirst(requested: string, inHeader: Option<string>)
    ensures var id := EffectiveId(requested, inHeader);
      if !IsBlank(requested) then id != [] && id == Trim(requested)
      else if inHeader.Some? then (id != [] <==> !IsBlank(inHeader.value)) && id == Trim(inHeader.value)
      else id == []
  {
    BlankIff(requested);
    if inHeader.Some? { BlankIff(inHeader.value); }
  }

  lemma BlankIff(s: string)
    ensures Trim(s) == [] <==> IsBlank(s)
  {
    var i, j := TrimCutsSpaces(s);
    if Trim(s) != [] {
      assert Trim(s)[0] == s[i];
    }
  }

  method CollectKnown(h: seq<Entry>, id: string, parent: string) returns (known: map<Key, string>)
    requires parent == ParentOf(id)
    ensures Tabulates(known, parent, KnownSuffixes(h, parent, OwnSuffixes(id)))
  {
    known := map[];
    var split := SplitKoliId(id);
    if split.Some? {
      AnotherSuffix(known, parent, {}, split.value.suffix);
      assert {} + {split.value.suffix} == OwnSuffixes(id);
      known := map[KeyOf(parent, split.value.suffix) := id];
    }
    for i := 0 to |h|
      invariant Tabulates(known, parent, KnownSuffixes(h[..i], parent, OwnSuffixes(id)))
    {
      assert h[..i + 1][..i] == h[..i];
      known := CollectKoliIds(h[i].detail, parent, known, KnownSuffixes(h[..i], parent, OwnSuffixes(id)));
    }
    assert h[..|h|] == h;
  }

  lemma SuffixOfKey(known: map<Key, string>, parent: string, suffixes: set<string>, key: Key) returns (s: string)
    requires Tabulates(known, parent, suffixes) && key in known
    ensures s in suffixes && IsSuffix(s) && KeyOf(parent, s) == key && known[key] == Id(parent, s)
  {
    s :| s in suffixes && IsSuffix(s) && KeyOf(parent, s) == key;
  }

  lemma EverySuffixIsDescribed(
    h: seq<Entry>, known: map<Key, string>, parent: string, suffixes: set<string>,
    context: Context, koli: seq<Koli>, s: string)
    requires Tabulates(known, parent, suffixes) && s in suffixes
    requires forall k :: k in known ==> k in KeysOf(koli)
    requires forall i :: 0 <= i < |koli| ==> IsPart(h, parent, suffixes, context, koli[i])
    ensures IsSuffix(s) && Part(h, parent, s, context) in koli
  {
    assert KeyOf(parent, s) in known;
    var i :| 0 <= i < |koli| && KeysOf(koli)[i] == KeyOf(parent, s);
    assert IsPart(h, parent, suffixes, context, koli[i]);
    var t :| t in suffixes && IsSuffix(t) && koli[i] == Part(h, parent, t, context);
    UpperIdIsInjective(parent, s, t);
  }

  /** What one turn of the loop pushes for an identifier of the table. */
  function DescriptionOf(h: seq<Entry>, id: string, number: nat, context: Context): Koli {
    var split := SplitKoliId(id);
    Describe(id, number, if split.Some? then Latest(h, split.value.parent, split.value.suffix) else None, context)
  }

  function DescriptionsOf(h: seq<Entry>, known: map<Key, string>, keys: seq<Key>, context: Context): (koli: seq<Koli>)
    requires forall i :: 0 <= i < |keys| ==> keys[i] in known
    ensures |koli| == |keys|
  {
    if keys == [] then [] else
      var last := keys[|keys| - 1];
      DescriptionsOf(h, known, keys[..|keys| - 1], context) + [DescriptionOf(h, known[last], last.number, context)]
  }

  lemma {:induction false} DescriptionAt(
    h: seq<Entry>, known: map<Key, string>, keys: seq<Key>, context: Context, i: nat)
    requires (forall j :: 0 <= j < |keys| ==> keys[j] in known) && i < |keys|
    ensures DescriptionsOf(h, known, keys, context)[i] == DescriptionOf(h, known[keys[i]], keys[i].number, context)
  {
    if i < |keys| - 1 {
      DescriptionAt(h, known, keys[..|keys| - 1], context, i);
    }
  }

  lemma DescriptionIsPart(
    h: seq<Entry>, known: map<Key, string>, key: Key, parent: string, suffixes: set<string>, context: Context)
    requires parent != [] && Tabulates(known, parent, suffixes) && key in known
    ensures var k := DescriptionOf(h, known[key], key.number, context);
      IsPart(h, parent, suffixes, context, k) && Key(k.number, Upper(k.id)) == key
  {
    var s := SuffixOfKey(known, parent, suffixes, key);
    SplitRecovers(parent, s);
    assert DescriptionOf(h, known[key], key.number, context) == Part(h, parent, s, context);
  }

  lemma AllDescribed(
    h: seq<Entry>, known: map<Key, string>, parent: string, suffixes: set<string>, context: Context, koli: seq<Koli>)
    requires Tabulates(known, parent, suffixes) && Increasing(KeysOf(koli))
    requires forall k :: k in known ==> k in KeysOf(koli)
    requires forall i :: 0 <= i < |koli| ==> IsPart(h, parent, suffixes, context, koli[i])
    ensures ArePartsOf(h, parent, suffixes, context, koli)
  {
    forall s | s in suffixes ensures IsSuffix(s) && Part(h, parent, s, context) in koli {
      EverySuffixIsDescribed(h, known, parent, suffixes, context, koli, s);
    }
  }

  lemma EachIsPart(
    h: seq<Entry>, known: map<Key, string>, keys: seq<Key>,
    parent: string, suffixes: set<string>, context: Context, i: nat)
    requires parent != [] && Tabulates(known, parent, suffixes)
    requires (forall j :: 0 <= j < |keys| ==> keys[j] in known) && i < |keys|
    ensures var k := DescriptionsOf(h, known, keys, context)[i];
      IsPart(h, parent, suffixes, context, k) && Key(k.number, Upper(k.id)) == keys[i]
  {
    DescriptionAt(h, known, keys, context, i);
    DescriptionIsPart(h, known, keys[i], parent, suffixes, context);
  }

  lemma DescriptionsHaveTheKeys(
    h: seq<Entry>, known: map<Key, string>, keys: seq<Key>, parent: string, suffixes: set<string>, context: Context)
    requires parent != [] && Tabulates(known, parent, suffixes) && forall j :: 0 <= j < |keys| ==> keys[j] in known
    ensures KeysOf(DescriptionsOf(h, known, keys, context)) == keys
  {
    forall i | 0 <= i < |keys| ensures KeysOf(DescriptionsOf(h, known, keys, context))[i] == keys[i] {
      EachIsPart(h, known, keys, parent, suffixes, context, i);
    }
  }

  lemma DescriptionsAreParts(
    h: seq<Entry>, known: map<Key, string>, keys: seq<Key>, parent: string, suffixes: set<string>, context: Context)
    requires parent != [] && Tabulates(known, parent, suffixes)
    requires Increasing(keys) && forall k :: k in keys <==> k in known
    ensures ArePartsOf(h, parent, suffixes, context, DescriptionsOf(h, known, keys, context))
  {
    var koli := DescriptionsOf(h, known, keys, context);
    DescriptionsHaveTheKeys(h, known, keys, parent, suffixes, context);
    forall i | 0 <= i < |koli| ensures IsPart(h, parent, suffixes, context, koli[i]) {
      EachIsPart(h, known, keys, parent, suffixes, context, i);
    }
    AllDescribed(h, known, parent, suffixes, context, koli);
  }

  method LatestStatusOf(
    h: seq<Entry>, known: map<Key, string>, key: Key, ghost parent: string, ghost suffixes: set<string>)
    returns (latest: Option<Entry>)
    requires parent != [] && Tabulates(known, parent, suffixes) && key in known
    ensures var split := SplitKoliId(known[key]);
      split.Some? && latest == Latest(h, split.value.parent, split.value.suffix)
  {
    ghost var s := SuffixOfKey(known, parent, suffixes, key);
    SplitRecovers(parent, s);
    latest := LatestStatus(h, known[key], parent, s);
  }

  /** The loop over the ordered table. */
  method DescribeAll(h: seq<Entry>, known: map<Key, string>, ghost parent: string, ghost suffixes: set<string>,
                     context: Context)
    returns (koli: seq<Koli>)
    requires parent != [] && Tabulates(known, parent, suffixes)
    ensures ArePartsOf(h, parent, suffixes, context, koli)
  {
    var keys := InOrder(known.Keys);
    koli := [];
    for i := 0 to |keys|
      invariant koli == DescriptionsOf(h, known, keys[..i], context)
    {
      assert keys[..i + 1][..i] == keys[..i] && keys[i] in known;
      var latest := LatestStatusOf(h, known, keys[i], parent, suffixes);
      koli := koli + [Describe(known[keys[i]], keys[i].number, latest, context)];
    }
    assert keys[..|keys|] == keys;
    DescriptionsAreParts(h, known, keys, parent, suffixes, context);
  }

  /** What the summary says of the parts of the shipment with this number. */
  ghost predicate Summarises(h: seq<Entry>, id: string, context: Context, multi: MultiKoli) {
    var suffixes := KnownSuffixes(h, ParentOf(id), OwnSuffixes(id));
    if id == [] || suffixes == {} then multi == SINGLE
    else
      && ArePartsOf(h, ParentOf(id), suffixes, context, multi.koli)
      && multi.count == |multi.koli| && (multi.isMultiKoli <==> multi.count > 1)
      && |multi.ids| == |multi.koli| && (forall i :: 0 <= i < |multi.ids| ==> multi.ids[i] == multi.koli[i].id)
      && multi.aggregate == AggregateKoliStatus(multi.koli)
  }

  lemma NothingKnown(known: map<Key, string>, parent: string, suffixes: set<string>)
    requires Tabulates(known, parent, suffixes)
    ensures known == map[] <==> suffixes == {}
  {
    if suffixes == {} {
      assert forall k :: k !in known;
    }
  }

  method SummariseParts(h: seq<Entry>, id: string, parent: string, context: Context) returns (multi: MultiKoli)
    requires id != [] && parent == ParentOf(id)
    ensures Summarises(h, id, context, multi)
  {
    var known := CollectKnown(h, id, parent);
    ghost var suffixes := KnownSuffixes(h, parent, OwnSuffixes(id));
    NothingKnown(known, parent, suffixes);
    if known == map[] {
      return SINGLE;
    }
    var koli := DescribeAll(h, known, parent, suffixes, context);
    var ids := seq(|koli|, i requires 0 <= i < |koli| => koli[i].id);
    multi := MultiKoli(|koli| > 1, |koli|, ids, AggregateKoliStatus(koli), koli);
  }

  /** `populate_shipment_structure`. */
  method PopulateShipmentStructure(h: seq<Entry>, requested: string, inHeader: Option<string>, context: Context)
    returns (identity: Identity, multi: MultiKoli)
    ensures var id := EffectiveId(requested, inHeader);
      var split := SplitKoliId(id);
      identity == Identity(NonEmpty(id), NonEmpty(ParentOf(id)), split.Some?,
                           if split.Some? then Some(Number(split.value.suffix)) else None)
    ensures var id := EffectiveId(requested, inHeader);
      && (identity.requested.Some? <==> identity.parent.Some?) && (identity.requested.Some? <==> id != [])
      && (id != [] ==> identity.requested.value == id && identity.parent.value == ParentOf(id))
    ensures identity.isKoli <==> OwnSuffixes(EffectiveId(requested, inHeader)) != {}
    ensures identity.number ==
      if identity.isKoli then Some(Number(SplitKoliId(identity.requested.value).value.suffix)) else None
    ensures Summarises(h, EffectiveId(requested, inHeader), context, multi)
  {
    var id := EffectiveId(requested, inHeader);
    var split := SplitKoliId(id);
    var parent := if split.Some? then split.value.parent else id;
    var number := if split.Some? then Some(Number(split.value.suffix)) else None;
    identity := Identity(NonEmpty(id), NonEmpty(parent), number.Some?, number);
    if parent == [] {
      return identity, SINGLE;
    }
    multi := SummariseParts(h, id, parent, context);
  }
}
