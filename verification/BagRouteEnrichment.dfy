/** Bag routes written into a tracking response: looked up a few at a time, applied as they arrive. */
module BagRouteEnrichment {
  import opened Options
  import opened Text

  const MAX_CONCURRENT_ENRICHMENTS := 4

  datatype Route = Route(bag: string, origin: Option<string>, destination: Option<string>)

  datatype Bagging = Bagging(location: Option<string>, destination: Option<string>)

  /** A bag of the history summary: its bagging, where it was unbagged, and the verdict on that. */
  datatype Summary = Summary(
    bag: string, bagging: Option<Bagging>, unbaggedAt: Option<string>, asIntended: Option<bool>)

  // ---------- comparing locations ----------

  predicate HasDigit(word: string) {
    exists i :: 0 <= i < |word| && IsDigit(word[i])
  }

  predicate IsAlphanumeric(c: char) {
    IsDigit(c) || 'A' <= c <= 'Z' || 'a' <= c <= 'z'
  }

  function Alphanumerics(word: string): string {
    if word == [] then []
    else if IsAlphanumeric(word[0]) then [word[0]] + Alphanumerics(word[1..])
    else Alphanumerics(word[1..])
  }

  function LastCode(words: seq<string>): Option<string> {
    if words == [] then None
    else if HasDigit(words[|words| - 1]) then Some(Alphanumerics(words[|words| - 1]))
    else LastCode(words[..|words| - 1])
  }

  /** The office code if the text has one, and otherwise the text, whatever its case and spacing. */
  function LocationIdentity(value: string): string {
    var normalized := Upper(Joined(Words(value)));
    var code := LastCode(Words(normalized));
    if code.Some? then code.value else normalized
  }

  predicate LocationsMatch(expected: string, actual: string) {
    LocationIdentity(expected) != [] && LocationIdentity(expected) == LocationIdentity(actual)
  }

  // ---------- spellings of one office ----------

  function UpperAll(words: seq<string>): (uppers: seq<string>)
    ensures |uppers| == |words| && forall i :: 0 <= i < |words| ==> uppers[i] == Upper(words[i])
  {
    seq(|words|, i requires 0 <= i < |words| => Upper(words[i]))
  }

  lemma UpperIsWord(word: string)
    requires IsWord(word)
    ensures IsWord(Upper(word))
  {
  }

  lemma UpperOfBoth(a: string, b: string)
    ensures Upper(a + b) == Upper(a) + Upper(b)
  {
  }

  lemma {:induction false} UpperOfJoined(words: seq<string>)
    ensures Upper(Joined(words)) == Joined(UpperAll(words))
  {
    if |words| > 1 {
      UpperOfJoined(words[1..]);
      assert UpperAll(words)[1..] == UpperAll(words[1..]);
      UpperOfBoth(words[0], " ");
      UpperOfBoth(words[0] + " ", Joined(words[1..]));
      assert Upper(" ") == " ";
    }
  }

  lemma WordsOfNormalized(value: string)
    ensures Words(Upper(Joined(Words(value)))) == UpperAll(Words(value))
  {
    var words := Words(value);
    AllAreWords(value);
    UpperOfJoined(words);
    forall w | w in UpperAll(words) ensures IsWord(w) {
      var i :| 0 <= i < |words| && w == UpperAll(words)[i];
      assert words[i] in words;
      UpperIsWord(words[i]);
    }
    WordsOfJoined(UpperAll(words));
  }

  lemma DigitsStay(word: string)
    ensures HasDigit(Upper(word)) <==> HasDigit(word)
  {
    if HasDigit(word) {
      var i :| 0 <= i < |word| && IsDigit(word[i]);
      assert IsDigit(Upper(word)[i]);
    }
    if HasDigit(Upper(word)) {
      var i :| 0 <= i < |word| && IsDigit(Upper(word)[i]);
      assert IsDigit(word[i]);
    }
  }

  lemma {:induction false} UpperAlphanumerics(word: string)
    ensures Alphanumerics(Upper(word)) == Upper(Alphanumerics(word))
  {
    if word != [] {
      assert Upper(word)[1..] == Upper(word[1..]);
      UpperAlphanumerics(word[1..]);
    }
  }

  lemma {:induction false} LastCodeIs(front: seq<string>, word: string, back: seq<string>)
    requires HasDigit(word) && forall w :: w in back ==> !HasDigit(w)
    ensures LastCode(front + [word] + back) == Some(Alphanumerics(word))
    decreases |back|
  {
    var words := front + [word] + back;
    if back == [] {
      assert words == front + [word];
    } else {
      assert words[|words| - 1] == back[|back| - 1] && back[|back| - 1] in back;
      assert words[..|words| - 1] == front + [word] + back[..|back| - 1];
      LastCodeIs(front, word, back[..|back| - 1]);
    }
  }

  lemma {:induction false} NoCode(words: seq<string>)
    requires forall w :: w in words ==> !HasDigit(w)
    ensures LastCode(words) == None
  {
    if words != [] {
      assert words[|words| - 1] in words;
      NoCode(words[..|words| - 1]);
    }
  }

  lemma {:induction false} NoDigitNoCode(s: string)
    requires forall i :: 0 <= i < |s| ==> !IsDigit(s[i])
    ensures forall w :: w in Words(s) ==> !HasDigit(w)
    decreases |s|
  {
    if s != [] {
      if IsSpace(s[0]) { NoDigitNoCode(s[1..]); } else { NoDigitNoCode(s[WordLength(s)..]); }
    }
  }

  lemma UpperNeedsNoDigit(words: seq<string>)
    requires forall w :: w in words ==> !HasDigit(w)
    ensures forall w :: w in UpperAll(words) ==> !HasDigit(w)
  {
    forall w | w in UpperAll(words) ensures !HasDigit(w) {
      var i :| 0 <= i < |words| && w == UpperAll(words)[i];
      assert words[i] in words;
      DigitsStay(words[i]);
    }
  }

  /** A text with an office code is known by it, in upper case and without punctuation, whatever is around
      it; the last word with a digit is the code. */
  lemma IdentityIsTheCode(before: string, code: string, after: string)
    requires EndsApart(before) && IsWord(code) && HasDigit(code) && BeginsApart(after)
    requires forall i :: 0 <= i < |after| ==> !IsDigit(after[i])
    ensures LocationIdentity(before + code + after) == Upper(Alphanumerics(code))
  {
    var value := before + code + after;
    CodeAmongWords(before, code, after);
    WordsOfNormalized(value);
    UpperAlphanumerics(code);
  }

  lemma CodeAmongWords(before: string, code: string, after: string)
    requires EndsApart(before) && IsWord(code) && HasDigit(code) && BeginsApart(after)
    requires forall i :: 0 <= i < |after| ==> !IsDigit(after[i])
    ensures LastCode(UpperAll(Words(before + code + after))) == Some(Alphanumerics(Upper(code)))
  {
    assert before + code + after == before + (code + after);
    WordsAround(before, code, after);
    NoDigitNoCode(after);
    LastCodeOfUppers(Words(before), code, Words(after));
  }

  lemma LastCodeOfUppers(front: seq<string>, code: string, back: seq<string>)
    requires HasDigit(code) && forall w :: w in back ==> !HasDigit(w)
    ensures LastCode(UpperAll(front + ([code] + back))) == Some(Alphanumerics(Upper(code)))
  {
    assert UpperAll(front + ([code] + back)) == UpperAll(front) + [Upper(code)] + UpperAll(back);
    UpperNeedsNoDigit(back);
    DigitsStay(code);
    LastCodeIs(UpperAll(front), Upper(code), UpperAll(back));
  }

  /** A text without a digit is known by its words, in upper case. */
  lemma IdentityIsTheText(value: string)
    requires forall i :: 0 <= i < |value| ==> !IsDigit(value[i])
    ensures LocationIdentity(value) == Joined(UpperAll(Words(value)))
  {
    WordsOfNormalized(value);
    UpperOfJoined(Words(value));
    NoDigitNoCode(value);
    UpperNeedsNoDigit(Words(value));
    NoCode(UpperAll(Words(value)));
  }

  /** Two spellings of an office match exactly if their codes are the same letters and digits, in any
      case, punctuated and surrounded in any way. */
  lemma SpellingsMatchIff(before: string, code: string, after: string, other: string, code': string, rest: string)
    requires EndsApart(before) && IsWord(code) && HasDigit(code) && BeginsApart(after)
    requires EndsApart(other) && IsWord(code') && HasDigit(code') && BeginsApart(rest)
    requires forall i :: 0 <= i < |after| ==> !IsDigit(after[i])
    requires forall i :: 0 <= i < |rest| ==> !IsDigit(rest[i])
    ensures LocationsMatch(before + code + after, other + code' + rest)
            <==> Upper(Alphanumerics(code)) == Upper(Alphanumerics(code'))
  {
    IdentityIsTheCode(before, code, after);
    IdentityIsTheCode(other, code', rest);
    CodeIsThere(code);
  }

  lemma {:induction false} CodeIsThere(word: string)
    requires HasDigit(word)
    ensures Alphanumerics(word) != []
  {
    if !IsDigit(word[0]) {
      var i :| 0 <= i < |word| && IsDigit(word[i]);
      assert word[1..][i - 1] == word[i];
      CodeIsThere(word[1..]);
    }
  }

  lemma {:induction false} AlphanumericsOfBoth(a: string, b: string)
    ensures Alphanumerics(a + b) == Alphanumerics(a) + Alphanumerics(b)
  {
    if a == [] {
      assert a + b == b;
    } else {
      assert (a + b)[1..] == a[1..] + b;
      AlphanumericsOfBoth(a[1..], b);
    }
  }

  lemma {:induction false} AlphanumericsStay(word: string)
    requires forall i :: 0 <= i < |word| ==> IsAlphanumeric(word[i])
    ensures Alphanumerics(word) == word
  {
    if word != [] { AlphanumericsStay(word[1..]); }
  }

  lemma {:induction false} PunctuationGoes(word: string)
    requires forall i :: 0 <= i < |word| ==> !IsAlphanumeric(word[i])
    ensures Alphanumerics(word) == []
  {
    if word != [] { PunctuationGoes(word[1..]); }
  }

  lemma PunctuatedInFront(punctuation: string, letters: string, rest: string)
    requires forall i :: 0 <= i < |punctuation| ==> !IsAlphanumeric(punctuation[i])
    requires forall i :: 0 <= i < |letters| ==> IsAlphanumeric(letters[i])
    ensures Alphanumerics(punctuation + (letters + rest)) == letters + Alphanumerics(rest)
  {
    AlphanumericsOfBoth(punctuation, letters + rest);
    AlphanumericsOfBoth(letters, rest);
    PunctuationGoes(punctuation);
    AlphanumericsStay(letters);
  }

  /** What is punctuated around and within a code does not count. */
  lemma SpelledInAnyWay(first: string, digits: string, middle: string, letters: string, last: string)
    requires forall i :: 0 <= i < |first| ==> !IsAlphanumeric(first[i])
    requires forall i :: 0 <= i < |digits| ==> IsAlphanumeric(digits[i])
    requires forall i :: 0 <= i < |middle| ==> !IsAlphanumeric(middle[i])
    requires forall i :: 0 <= i < |letters| ==> IsAlphanumeric(letters[i])
    requires forall i :: 0 <= i < |last| ==> !IsAlphanumeric(last[i])
    ensures Alphanumerics(first + (digits + (middle + (letters + last)))) == digits + letters
  {
    PunctuatedInFront(first, digits, middle + (letters + last));
    PunctuatedInFront(middle, letters, last);
    PunctuationGoes(last);
  }

  /** Such spellings: blanks, brackets, a hyphen and the case of letters make no difference. */
  lemma OneSpelling(office: string, code: string, other: string, digits: string, letter: string, code': string)
    requires office == "DC Bandung " && code == "9910A"
    requires other == "dc  bandung " && digits == "9910" && letter == "a"
    requires code' == "(" + (digits + ("-" + (letter + ")")))
    ensures LocationsMatch(office + code + "", other + code' + " ")
  {
    assert IsDigit(code[0]) && IsDigit(code'[1]);
    SpellingsMatchIff(office, code, "", other, code', " ");
    AlphanumericsStay(code);
    SpelledInAnyWay("(", digits, "-", letter, ")");
    assert Upper(digits + letter) == code == Upper(code);
  }

  /** And another office, whose code differs in its letter. */
  lemma TwoOffices(office: string, code: string, code': string)
    requires office == "DC Bandung " && code == "9910A" && code' == "9910B"
    ensures !LocationsMatch(office + code + "", office + code' + "")
  {
    assert IsDigit(code[0]) && IsDigit(code'[0]);
    SpellingsMatchIff(office, code, "", office, code', "");
    AlphanumericsStay(code);
    AlphanumericsStay(code');
    assert Upper(code)[4] != Upper(code')[4];
  }

  // ---------- one route ----------

  function Verdict(destination: Option<string>, unbaggedAt: Option<string>): Option<bool> {
    if destination.Some? && unbaggedAt.Some? then Some(LocationsMatch(destination.value, unbaggedAt.value)) else None
  }

  function AppliedTo(summary: Summary, route: Route): Summary {
    if !EqIgnoringCase(summary.bag, route.bag) || summary.bagging.None? then summary else
      var bagging := summary.bagging.value;
      var location := if bagging.location.None? then route.origin else bagging.location;
      var destination := if route.destination.Some? then route.destination else bagging.destination;
      summary.(bagging := Some(Bagging(location, destination)), asIntended := Verdict(destination, summary.unbaggedAt))
  }

  function Applied(summaries: seq<Summary>, route: Route): (applied: seq<Summary>)
    ensures |applied| == |summaries|
    ensures forall i :: 0 <= i < |summaries| ==> applied[i] == AppliedTo(summaries[i], route)
  {
    seq(|summaries|, i requires 0 <= i < |summaries| => AppliedTo(summaries[i], route))
  }

  /** A route takes no knowledge away, and repeats nothing: a known location stays, a known destination
      stays known, the verdict is about what is then shown, and a second application changes nothing. */
  lemma ApplyingKeepsKnowledge(summary: Summary, route: Route)
    requires summary.bagging.Some?
    ensures
      var after := AppliedTo(summary, route);
      && after.bag == summary.bag && after.unbaggedAt == summary.unbaggedAt && after.bagging.Some?
      && (summary.bagging.value.location.Some? ==> after.bagging.value.location == summary.bagging.value.location)
      && (summary.bagging.value.destination.Some? ==> after.bagging.value.destination.Some?)
      && (EqIgnoringCase(summary.bag, route.bag) ==>
            after.asIntended == Verdict(after.bagging.value.destination, after.unbaggedAt))
      && AppliedTo(after, route) == after
  {
  }

  /** What a route writes: the origin where no location is known, its destination wherever it has one, and
      the verdict on what is then shown; summaries of other bags, or without a bagging, stay as they are. */
  ghost predicate IsWritten(before: Summary, route: Route, after: Summary) {
    if Upper(before.bag) == Upper(route.bag) && before.bagging.Some? then
      && after.bag == before.bag && after.unbaggedAt == before.unbaggedAt && after.bagging.Some?
      && after.bagging.value.location == Or(before.bagging.value.location, route.origin)
      && after.bagging.value.destination == Or(route.destination, before.bagging.value.destination)
      && (after.asIntended.Some? <==> after.bagging.value.destination.Some? && before.unbaggedAt.Some?)
      && (after.asIntended.Some? ==>
            after.asIntended.value == LocationsMatch(after.bagging.value.destination.value, before.unbaggedAt.value))
    else after == before
  }

  lemma ApplyingWrites(summary: Summary, route: Route)
    ensures IsWritten(summary, route, AppliedTo(summary, route))
  {
  }

  /** `apply_bag_route`, in place. */
  method ApplyBagRoute(summaries: array<Summary>, route: Route)
    modifies summaries
    ensures summaries[..] == Applied(old(summaries[..]), route)
    ensures forall i :: 0 <= i < summaries.Length ==> IsWritten(old(summaries[i]), route, summaries[i])
  {
    for i := 0 to summaries.Length
      invariant forall j :: 0 <= j < i ==> summaries[j] == AppliedTo(old(summaries[j]), route)
      invariant forall j :: i <= j < summaries.Length ==> summaries[j] == old(summaries[j])
    {
      var summary := summaries[i];
      if !EqIgnoringCase(summary.bag, route.bag) || summary.bagging.None? {
        continue;
      }
      var bagging := summary.bagging.value;
      if bagging.location.None? {
        bagging := bagging.(location := route.origin);
      }
      if route.destination.Some? {
        bagging := bagging.(destination := route.destination);
      }
      var verdict := None;
      if bagging.destination.Some? && summary.unbaggedAt.Some? {
        verdict := Some(LocationsMatch(bagging.destination.value, summary.unbaggedAt.value));
      }
      summaries[i] := summary.(bagging := Some(bagging), asIntended := verdict);
    }
  }

  // ---------- the bags to look up ----------

  predicate AsksFor(summary: Summary, bag: string) {
    summary.bagging.Some? && bag == Upper(Trim(summary.bag)) && bag != []
  }

  method PendingBags(summaries: seq<Summary>) returns (pending: seq<string>)
    ensures forall i, j :: 0 <= i < j < |pending| ==> pending[i] != pending[j]
    ensures forall bag :: bag in pending <==> exists s :: s in summaries && AsksFor(s, bag)
  {
    var seen: set<string> := {};
    pending := [];
    for i := 0 to |summaries|
      invariant forall j, k :: 0 <= j < k < |pending| ==> pending[j] != pending[k]
      invariant forall bag :: bag in seen <==> bag in pending
      invariant forall bag :: bag in pending <==> exists j :: 0 <= j < i && AsksFor(summaries[j], bag)
    {
      var bag := Upper(Trim(summaries[i].bag));
      if summaries[i].bagging.Some? && bag != [] && bag !in seen {
        seen := seen + {bag};
        pending := pending + [bag];
      }
    }
  }

  // ---------- all routes, in any order ----------

  /** The summaries after the routes of these bags were applied, in the order in which they arrived. */
  function AppliedInOrder(before: seq<Summary>, arrived: seq<string>, resolve: string -> Option<Route>)
    : (after: seq<Summary>)
    ensures |after| == |before|
  {
    if arrived == [] then before else
      var earlier, route := AppliedInOrder(before, arrived[..|arrived| - 1], resolve), resolve(arrived[|arrived| - 1]);
      if route.Some? then Applied(earlier, route.value) else earlier
  }

  /** The summary once the routes of the bags in `done` have arrived. */
  function EnrichedBy(summary: Summary, done: set<string>, resolve: string -> Option<Route>): Summary {
    var bag := Upper(summary.bag);
    if bag in done && resolve(bag).Some? then AppliedTo(summary, resolve(bag).value) else summary
  }

  ghost predicate AreEnriched(
    before: seq<Summary>, after: seq<Summary>, done: set<string>, resolve: string -> Option<Route>)
  {
    |after| == |before| && forall i :: 0 <= i < |before| ==> after[i] == EnrichedBy(before[i], done, resolve)
  }

  /** A route that is resolved for a bag is that bag's. */
  ghost predicate IsFaithful(resolve: string -> Option<Route>) {
    forall bag :: resolve(bag).Some? ==> Upper(resolve(bag).value.bag) == bag
  }

  lemma OneMoreArrives(
    before: seq<Summary>, after: seq<Summary>, done: set<string>, bag: string, resolve: string -> Option<Route>)
    requires IsFaithful(resolve) && bag !in done && AreEnriched(before, after, done, resolve)
    ensures resolve(bag).None? ==> AreEnriched(before, after, done + {bag}, resolve)
    ensures resolve(bag).Some? ==> AreEnriched(before, Applied(after, resolve(bag).value), done + {bag}, resolve)
  {
  }

  ghost predicate AreDistinct(bags: seq<string>) {
    forall i, j :: 0 <= i < j < |bags| ==> bags[i] != bags[j]
  }

  function SetOf(bags: seq<string>): set<string> {
    set bag | bag in bags
  }

  /** If every route is that of the bag it was looked up for, the order of arrival makes no difference. */
  lemma {:induction false} OrderOfArrivalIsIrrelevant(
    before: seq<Summary>, arrived: seq<string>, resolve: string -> Option<Route>)
    requires IsFaithful(resolve) && AreDistinct(arrived)
    ensures AreEnriched(before, AppliedInOrder(before, arrived, resolve), SetOf(arrived), resolve)
  {
    if arrived != [] {
      var init, last := arrived[..|arrived| - 1], arrived[|arrived| - 1];
      OrderOfArrivalIsIrrelevant(before, init, resolve);
      OneMoreArrives(before, AppliedInOrder(before, init, resolve), SetOf(init), last, resolve);
      assert arrived == init + [last];
      assert SetOf(arrived) == SetOf(init) + {last};
    }
  }

  /** Every summary has what the route of its own bag writes, if that bag's lookup has arrived with one, and
      otherwise is as before. */
  ghost predicate AreWritten(
    before: seq<Summary>, after: seq<Summary>, arrived: seq<string>, resolve: string -> Option<Route>)
  {
    && |after| == |before|
    && forall i :: 0 <= i < |before| ==>
         var bag := Upper(before[i].bag);
         if bag in arrived && resolve(bag).Some? then IsWritten(before[i], resolve(bag).value, after[i])
         else after[i] == before[i]
  }

  lemma {:induction false} InSetOf(bags: seq<string>, bag: string)
    ensures bag in SetOf(bags) <==> bag in bags
  {
    if bags != [] { InSetOf(bags[..|bags| - 1], bag); }
  }

  lemma EnrichedAreWritten(
    before: seq<Summary>, after: seq<Summary>, arrived: seq<string>, resolve: string -> Option<Route>)
    requires AreEnriched(before, after, SetOf(arrived), resolve)
    ensures AreWritten(before, after, arrived, resolve)
  {
    forall i | 0 <= i < |before|
      ensures var bag := Upper(before[i].bag);
              if bag in arrived && resolve(bag).Some? then IsWritten(before[i], resolve(bag).value, after[i])
              else after[i] == before[i]
    {
      var bag := Upper(before[i].bag);
      InSetOf(arrived, bag);
      if resolve(bag).Some? { ApplyingWrites(before[i], resolve(bag).value); }
    }
  }

  /** The lookups that run and are done are just the first `next` pending ones. */
  ghost predicate IsDispatched(pending: seq<string>, next: nat, tasks: set<string>, done: set<string>)
    requires next <= |pending|
  {
    && tasks !! done
    && (forall k :: 0 <= k < next ==> pending[k] in tasks || pending[k] in done)
    && (forall bag :: bag in tasks || bag in done ==> exists k :: 0 <= k < next && pending[k] == bag)
  }

  method StartLookups(pending: seq<string>, first: nat, running: set<string>, ghost done: set<string>)
    returns (next: nat, tasks: set<string>)
    requires forall i, j :: 0 <= i < j < |pending| ==> pending[i] != pending[j]
    requires first <= |pending| && IsDispatched(pending, first, running, done)
    requires |running| <= MAX_CONCURRENT_ENRICHMENTS
    ensures first <= next <= |pending| && IsDispatched(pending, next, tasks, done)
    ensures |tasks| <= MAX_CONCURRENT_ENRICHMENTS && |tasks| - |running| == next - first
    ensures |tasks| == MAX_CONCURRENT_ENRICHMENTS || next == |pending|
  {
    next, tasks := first, running;
    while |tasks| < MAX_CONCURRENT_ENRICHMENTS && next < |pending|
      invariant first <= next <= |pending| && IsDispatched(pending, next, tasks, done)
      invariant |tasks| <= MAX_CONCURRENT_ENRICHMENTS && |tasks| - |running| == next - first
      decreases |pending| - next
    {
      assert pending[next] !in tasks && pending[next] !in done;
      tasks := tasks + {pending[next]};
      next := next + 1;
    }
  }

  lemma ArrivedWasPending(pending: seq<string>, next: nat, tasks: set<string>, arrived: seq<string>)
    requires next <= |pending| && IsDispatched(pending, next, tasks, SetOf(arrived))
    ensures forall bag :: bag in arrived ==> bag in pending
    ensures tasks == {} && next == |pending| ==> forall bag :: bag in pending ==> bag in arrived
  {
    forall bag | bag in arrived ensures bag in pending {
      assert bag in SetOf(arrived);
    }
  }

  lemma AnotherArrival(
    pending: seq<string>, next: nat, tasks: set<string>, arrived: seq<string>, bag: string)
    requires next <= |pending| && IsDispatched(pending, next, tasks, SetOf(arrived)) && AreDistinct(arrived)
    requires bag in tasks
    ensures IsDispatched(pending, next, tasks - {bag}, SetOf(arrived + [bag])) && AreDistinct(arrived + [bag])
  {
    assert SetOf(arrived + [bag]) == SetOf(arrived) + {bag};
    forall i | 0 <= i < |arrived| ensures arrived[i] != bag {
      assert arrived[i] in SetOf(arrived);
    }
  }

  /** One lookup is joined: its route, if there is one, is applied. */
  method Join(summaries: array<Summary>, bag: string, resolve: string -> Option<Route>,
              ghost before: seq<Summary>, ghost arrived: seq<string>)
    requires summaries[..] == AppliedInOrder(before, arrived, resolve)
    modifies summaries
    ensures summaries[..] == AppliedInOrder(before, arrived + [bag], resolve)
  {
    assert (arrived + [bag])[..|arrived|] == arrived;
    if resolve(bag).Some? {
      ApplyBagRoute(summaries, resolve(bag).value);
    }
  }

  /** `enrich_tracking_bag_routes`. Lookups finish in any order; `budget` is how many may be joined before
      the caller's timeout. What has arrived by then is applied in the order of arrival and the rest not at
      all; with enough budget all of it. */
  method Enrich(summaries: array<Summary>, resolve: string -> Option<Route>, budget: nat)
    returns (pending: seq<string>, ghost arrived: seq<string>, ghost peak: nat)
    modifies summaries
    ensures AreDistinct(arrived) && peak <= MAX_CONCURRENT_ENRICHMENTS
    ensures forall bag :: bag in pending <==> exists s :: s in old(summaries[..]) && AsksFor(s, bag)
    ensures forall bag :: bag in arrived ==> bag in pending
    ensures budget >= |pending| ==> forall bag :: bag in pending ==> bag in arrived
    ensures summaries[..] == AppliedInOrder(old(summaries[..]), arrived, resolve)
    ensures IsFaithful(resolve) ==> AreEnriched(old(summaries[..]), summaries[..], SetOf(arrived), resolve)
    ensures IsFaithful(resolve) ==> AreWritten(old(summaries[..]), summaries[..], arrived, resolve)
  {
    pending := PendingBags(summaries[..]);
    var next: nat, tasks: set<string>, joined: nat := 0, {}, 0;
    arrived, peak := [], 0;
    while joined < budget
      invariant next <= |pending| && |tasks| <= MAX_CONCURRENT_ENRICHMENTS && peak <= MAX_CONCURRENT_ENRICHMENTS
      invariant joined + |tasks| == next && IsDispatched(pending, next, tasks, SetOf(arrived))
      invariant AreDistinct(arrived) && summaries[..] == AppliedInOrder(old(summaries[..]), arrived, resolve)
      decreases budget - joined
    {
      next, tasks := StartLookups(pending, next, tasks, SetOf(arrived));
      peak := if peak < |tasks| then |tasks| else peak;
      if tasks == {} {
        break;
      }
      var bag :| bag in tasks;
      Join(summaries, bag, resolve, old(summaries[..]), arrived);
      AnotherArrival(pending, next, tasks, arrived, bag);
      tasks := tasks - {bag};
      arrived := arrived + [bag];
      joined := joined + 1;
    }
    ArrivedWasPending(pending, next, tasks, arrived);
    if IsFaithful(resolve) {
      OrderOfArrivalIsIrrelevant(old(summaries[..]), arrived, resolve);
      EnrichedAreWritten(old(summaries[..]), summaries[..], arrived, resolve);
    }
  }
}
