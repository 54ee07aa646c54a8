/** The summary of a shipment's history: one pass over the entries, whose phrases are already
    recognised and taken apart. */
module HistorySummary {
  import opened Options
  import opened Picked
  import opened Text

  /** Date and time as split from the entry. */
  datatype Stamp = Stamp(date: Option<string>, time: Option<string>)

  datatype Who = Who(officer: Option<string>, location: Option<string>)

  /** A bagging or unbagging phrase: absent, without a legible bag number, or naming a bag. */
  datatype Mention = Absent | Illegible | Of(bag: string, who: Who)

  datatype UpdateDetail = UpdateDetail(officer: Option<string>, status: Option<string>, note: Option<string>)

  datatype Entry = Entry(
    at: Stamp,
    coordinate: Option<string>,
    irregularity: Option<UpdateDetail>,
    bagging: Mention,
    unbagging: Mention,
    manifestR7: Option<string>,
    runsheet: Option<Who>,
    attempt: Option<UpdateDetail>,
    success: Option<UpdateDetail>,
    saysDelivered: bool)

  datatype Event = Event(who: Who, at: Stamp)
  datatype BagSummary = BagSummary(bag: string, bagging: Option<Event>, unbagging: Option<Event>)
  datatype Irregularity = Irregularity(detail: UpdateDetail, at: Stamp)
  datatype ManifestR7 = ManifestR7(detail: string, at: Stamp)
  datatype Update = Update(detail: UpdateDetail, at: Stamp, coordinate: Option<string>)
  datatype Header = Blank | Header(who: Who, at: Stamp, coordinate: Option<string>)
  datatype Runsheet = Runsheet(header: Header, updates: seq<Update>)

  datatype FinalStatus = FinalStatus(
    status: Option<string>, officerName: Option<string>, officerId: Option<string>, at: Stamp)

  datatype Summary = Summary(
    irregularities: seq<Irregularity>, bags: seq<BagSummary>, manifestR7s: seq<ManifestR7>, runsheets: seq<Runsheet>)

  // ---------- irregularities and manifests ----------

  function Irregularities(h: seq<Entry>): seq<Irregularity> {
    if h == [] then [] else
      var told := IrregularityOf(h[|h| - 1]);
      Irregularities(h[..|h| - 1]) + if told.Some? then [told.value] else []
  }

  function ManifestR7s(h: seq<Entry>): seq<ManifestR7> {
    if h == [] then [] else
      var told := ManifestOf(h[|h| - 1]);
      ManifestR7s(h[..|h| - 1]) + if told.Some? then [told.value] else []
  }

  function IrregularityOf(e: Entry): Option<Irregularity> {
    if e.irregularity.Some? then Some(Irregularity(e.irregularity.value, e.at)) else None
  }

  function ManifestOf(e: Entry): Option<ManifestR7> {
    if e.manifestR7.Some? then Some(ManifestR7(e.manifestR7.value, e.at)) else None
  }

  lemma {:induction false} IrregularityPositions(h: seq<Entry>) returns (at: seq<nat>)
    ensures AreValues(EachOf(h, IrregularityOf), Irregularities(h), at)
  {
    at := [];
    if h != [] {
      var init, last := h[..|h| - 1], IrregularityOf(h[|h| - 1]);
      var each := EachOf(init, IrregularityOf);
      at := IrregularityPositions(init);
      EachGoesOn(h, IrregularityOf);
      assert Irregularities(h) == if last.Some? then Irregularities(init) + [last.value] else Irregularities(init);
      at := ValuesGoOn(each, Irregularities(init), at, last);
    }
  }

  lemma {:induction false} ManifestPositions(h: seq<Entry>) returns (at: seq<nat>)
    ensures AreValues(EachOf(h, ManifestOf), ManifestR7s(h), at)
  {
    at := [];
    if h != [] {
      var init, last := h[..|h| - 1], ManifestOf(h[|h| - 1]);
      var each := EachOf(init, ManifestOf);
      at := ManifestPositions(init);
      EachGoesOn(h, ManifestOf);
      assert ManifestR7s(h) == if last.Some? then ManifestR7s(init) + [last.value] else ManifestR7s(init);
      at := ValuesGoOn(each, ManifestR7s(init), at, last);
    }
  }

  /** Every entry that tells of an irregularity is listed, in order, with its detail and its time. */
  lemma IrregularitiesAreListed(h: seq<Entry>, told: seq<Irregularity>) returns (at: seq<nat>)
    requires told == Irregularities(h)
    ensures |at| == |told| && forall i, j :: 0 <= i < j < |at| ==> at[i] < at[j]
    ensures forall i :: 0 <= i < |at| ==>
      at[i] < |h| && h[at[i]].irregularity == Some(told[i].detail) && h[at[i]].at == told[i].at
    ensures forall k: nat :: k < |h| && h[k].irregularity.Some? ==> IsAmong(at, k)
  {
    at := IrregularityPositions(h);
    forall i | 0 <= i < |at|
      ensures at[i] < |h| && h[at[i]].irregularity == Some(told[i].detail) && h[at[i]].at == told[i].at
    {
      assert EachOf(h, IrregularityOf)[at[i]] == IrregularityOf(h[at[i]]) == Some(told[i]);
    }
    forall k: nat | k < |h| && h[k].irregularity.Some? ensures IsAmong(at, k) {
      assert EachOf(h, IrregularityOf)[k] == IrregularityOf(h[k]);
    }
  }

  /** And every entry that tells of a manifest. */
  lemma ManifestsAreListed(h: seq<Entry>, told: seq<ManifestR7>) returns (at: seq<nat>)
    requires told == ManifestR7s(h)
    ensures |at| == |told| && forall i, j :: 0 <= i < j < |at| ==> at[i] < at[j]
    ensures forall i :: 0 <= i < |at| ==>
      at[i] < |h| && h[at[i]].manifestR7 == Some(told[i].detail) && h[at[i]].at == told[i].at
    ensures forall k: nat :: k < |h| && h[k].manifestR7.Some? ==> IsAmong(at, k)
  {
    at := ManifestPositions(h);
    forall i | 0 <= i < |at|
      ensures at[i] < |h| && h[at[i]].manifestR7 == Some(told[i].detail) && h[at[i]].at == told[i].at
    {
      assert EachOf(h, ManifestOf)[at[i]] == ManifestOf(h[at[i]]) == Some(told[i]);
    }
    forall k: nat | k < |h| && h[k].manifestR7.Some? ensures IsAmong(at, k) {
      assert EachOf(h, ManifestOf)[k] == ManifestOf(h[k]);
    }
  }

  // ---------- bags ----------

  /** An unbagging phrase is looked at only in an entry without a bagging phrase. */
  predicate Bags(e: Entry, bag: string) {
    e.bagging.Of? && e.bagging.bag == bag
  }

  predicate Unbags(e: Entry, bag: string) {
    e.bagging.Absent? && e.unbagging.Of? && e.unbagging.bag == bag
  }

  predicate Names(e: Entry, bag: string) {
    Bags(e, bag) || Unbags(e, bag)
  }

  function NamedBag(e: Entry): (bag: Option<string>)
    ensures forall b :: Names(e, b) <==> bag == Some(b)
  {
    if e.bagging.Of? then Some(e.bagging.bag)
    else if e.bagging.Absent? && e.unbagging.Of? then Some(e.unbagging.bag)
    else None
  }

  function BagOrder(h: seq<Entry>): seq<string> {
    if h == [] then [] else
      var before, named := BagOrder(h[..|h| - 1]), NamedBag(h[|h| - 1]);
      if named.Some? && named.value !in before then before + [named.value] else before
  }

  function LastBagging(h: seq<Entry>, bag: string): Option<Event> {
    if h == [] then None else
      var e := h[|h| - 1];
      if Bags(e, bag) then Some(Event(e.bagging.who, e.at)) else LastBagging(h[..|h| - 1], bag)
  }

  function LastUnbagging(h: seq<Entry>, bag: string): Option<Event> {
    if h == [] then None else
      var e := h[|h| - 1];
      if Unbags(e, bag) then Some(Event(e.unbagging.who, e.at)) else LastUnbagging(h[..|h| - 1], bag)
  }

  function BagSummaryOf(h: seq<Entry>, bag: string): BagSummary {
    BagSummary(bag, LastBagging(h, bag), LastUnbagging(h, bag))
  }

  /** Entry k is the first to name its bag. */
  ghost predicate IsFirstMention(h: seq<Entry>, k: nat, bag: string) {
    k < |h| && Names(h[k], bag) && forall j :: 0 <= j < k ==> !Names(h[j], bag)
  }

  /** A bag is summarised exactly if some entry names it; no bag twice; and in the order of the first
      mentions, at whose positions the bags are found. */
  lemma {:induction false} BagOrderIsFirstMentionOrder(h: seq<Entry>) returns (firsts: seq<nat>)
    ensures |firsts| == |BagOrder(h)|
    ensures forall i :: 0 <= i < |firsts| ==> IsFirstMention(h, firsts[i], BagOrder(h)[i])
    ensures forall i, j :: 0 <= i < j < |firsts| ==> firsts[i] < firsts[j] && BagOrder(h)[i] != BagOrder(h)[j]
    ensures forall k, b :: 0 <= k < |h| && Names(h[k], b) ==> b in BagOrder(h)
  {
    if h == [] {
      firsts := [];
    } else {
      var init := h[..|h| - 1];
      var earlier := BagOrderIsFirstMentionOrder(init);
      assert forall i :: 0 <= i < |earlier| ==> IsFirstMention(h, earlier[i], BagOrder(init)[i]);
      assert forall k :: 0 <= k < |h| - 1 ==> init[k] == h[k];
      var named := NamedBag(h[|h| - 1]);
      if named.Some? && named.value !in BagOrder(init) {
        assert IsFirstMention(h, |h| - 1, named.value);
        firsts := earlier + [|h| - 1];
      } else {
        firsts := earlier;
      }
    }
  }

  /** A bag is summarised exactly if some entry says that it was bagged, or, without any bagging phrase,
      that it was unbagged. */
  lemma SummarisedIff(h: seq<Entry>, bag: string)
    ensures bag in BagOrder(h) <==>
      exists k :: 0 <= k < |h| &&
        (|| (h[k].bagging.Of? && h[k].bagging.bag == bag)
         || (h[k].bagging.Absent? && h[k].unbagging.Of? && h[k].unbagging.bag == bag))
  {
    var firsts := BagOrderIsFirstMentionOrder(h);
    if bag in BagOrder(h) {
      var i :| 0 <= i < |firsts| && BagOrder(h)[i] == bag;
      assert IsFirstMention(h, firsts[i], bag);
    }
    forall k | 0 <= k < |h| && Names(h[k], bag) ensures bag in BagOrder(h) {
    }
  }

  /** The bagging shown for a bag is that of the last entry that bags it. */
  lemma {:induction false} LastBaggingIsLast(h: seq<Entry>, bag: string)
    ensures LastBagging(h, bag).None? <==> forall k :: 0 <= k < |h| ==> !Bags(h[k], bag)
    ensures LastBagging(h, bag).Some? ==>
      exists k :: 0 <= k < |h| && Bags(h[k], bag) && LastBagging(h, bag).value == Event(h[k].bagging.who, h[k].at)
                  && forall j :: k < j < |h| ==> !Bags(h[j], bag)
    ensures LastBagging(h, bag).Some? <==> exists k :: 0 <= k < |h| && h[k].bagging.Of? && h[k].bagging.bag == bag
  {
    if h != [] {
      LastBaggingIsLast(h[..|h| - 1], bag);
    }
  }

  lemma {:induction false} LastUnbaggingIsLast(h: seq<Entry>, bag: string)
    ensures LastUnbagging(h, bag).None? <==> forall k :: 0 <= k < |h| ==> !Unbags(h[k], bag)
    ensures LastUnbagging(h, bag).Some? ==>
      exists k :: 0 <= k < |h| && Unbags(h[k], bag) && LastUnbagging(h, bag).value == Event(h[k].unbagging.who, h[k].at)
                  && forall j :: k < j < |h| ==> !Unbags(h[j], bag)
    ensures LastUnbagging(h, bag).Some? <==>
      exists k :: 0 <= k < |h| && h[k].bagging.Absent? && h[k].unbagging.Of? && h[k].unbagging.bag == bag
  {
    if h != [] {
      LastUnbaggingIsLast(h[..|h| - 1], bag);
    }
  }

  // ---------- runsheets ----------

  /** Entries that open a sheet of their own if there is none yet. */
  predicate Starts(e: Entry) {
    e.runsheet.Some? || e.attempt.Some? || e.success.Some?
  }

  /** The update an entry makes to the current sheet; a runsheet entry makes none. */
  function UpdateOf(e: Entry): Option<Update> {
    if e.runsheet.Some? then None
    else if e.attempt.Some? then Some(Update(e.attempt.value, e.at, e.coordinate))
    else if e.success.Some? then Some(Update(e.success.value, e.at, e.coordinate))
    else if e.saysDelivered then Some(Update(UpdateDetail(None, Some(DELIVERED), None), e.at, e.coordinate))
    else None
  }

  function HeaderOf(e: Entry): Header {
    if e.runsheet.Some? then Header(e.runsheet.value, e.at, e.coordinate) else Blank
  }

  function Listed(update: Option<Update>): seq<Update> {
    if update.Some? then [update.value] else []
  }

  function WithEntry(sheets: seq<Runsheet>, e: Entry): seq<Runsheet> {
    var update := UpdateOf(e);
    if e.runsheet.Some? || (sheets == [] && Starts(e)) then sheets + [Runsheet(HeaderOf(e), Listed(update))]
    else if sheets == [] || update.None? then sheets
    else sheets[|sheets| - 1 := sheets[|sheets| - 1].(updates := Listed(update))]
  }

  function Runsheets(h: seq<Entry>): seq<Runsheet> {
    if h == [] then [] else WithEntry(Runsheets(h[..|h| - 1]), h[|h| - 1])
  }

  /** Entry k opens a sheet: it is a runsheet entry, or the first entry that can open one. */
  ghost predicate Opens(h: seq<Entry>, k: nat) {
    k < |h| && (h[k].runsheet.Some? || (Starts(h[k]) && forall j :: 0 <= j < k ==> !Starts(h[j])))
  }

  /** Sheet number i was opened by entry `from`, and entries up to `to` belong to it: it has the header
      of the entry that opened it, and one update, that of the last entry of the segment that makes
      one; none if no entry does. */
  ghost predicate CoversSegment(h: seq<Entry>, sheet: Runsheet, from: nat, to: nat)
    requires from < to <= |h|
  {
    && sheet.header == HeaderOf(h[from])
    && (sheet.updates == [] <==> forall k :: from <= k < to ==> UpdateOf(h[k]).None?)
    && (sheet.updates != [] ==>
          exists k :: from <= k < to && sheet.updates == Listed(UpdateOf(h[k]))
            && forall j :: k < j < to ==> UpdateOf(h[j]).None?)
  }

  /** Where the segment of sheet i ends. */
  function SegmentEnd(openings: seq<nat>, i: nat, length: nat): nat {
    if i + 1 < |openings| then openings[i + 1] else length
  }

  lemma {:induction false} NoSheetUntilStarted(h: seq<Entry>)
    ensures Runsheets(h) == [] <==> forall k :: 0 <= k < |h| ==> !Starts(h[k])
  {
    if h != [] {
      NoSheetUntilStarted(h[..|h| - 1]);
    }
  }

  lemma SegmentOfPrefix(h: seq<Entry>, n: nat, sheet: Runsheet, from: nat, to: nat)
    requires from < to <= n <= |h| && CoversSegment(h[..n], sheet, from, to)
    ensures CoversSegment(h, sheet, from, to)
  {
    assert forall k :: from <= k < to ==> h[..n][k] == h[k];
  }

  lemma SegmentGrows(h: seq<Entry>, sheet: Runsheet, from: nat, to: nat)
    requires from < to < |h| && CoversSegment(h, sheet, from, to)
    ensures UpdateOf(h[to]).None? ==> CoversSegment(h, sheet, from, to + 1)
    ensures UpdateOf(h[to]).Some? ==> CoversSegment(h, sheet.(updates := Listed(UpdateOf(h[to]))), from, to + 1)
  {
  }

  /** `openings` are the entries that open a sheet, in order, and every sheet covers its segment. */
  ghost predicate AreSheetsOf(h: seq<Entry>, sheets: seq<Runsheet>, openings: seq<nat>) {
    && |openings| == |sheets|
    && (forall i :: 0 <= i < |openings| ==> openings[i] < |h|)
    && (forall i, j :: 0 <= i < j < |openings| ==> openings[i] < openings[j])
    && (forall k :: k in openings <==> Opens(h, k))
    && (forall i :: 0 <= i < |sheets| ==> CoversSegment(h, sheets[i], openings[i], SegmentEnd(openings, i, |h|)))
  }

  lemma OpensInPrefix(h: seq<Entry>, k: nat)
    requires k + 1 < |h|
    ensures Opens(h[..|h| - 1], k) <==> Opens(h, k)
  {
  }

  lemma SegmentOpens(h: seq<Entry>, k: nat)
    requires k < |h|
    ensures CoversSegment(h, Runsheet(HeaderOf(h[k]), Listed(UpdateOf(h[k]))), k, k + 1)
  {
  }

  lemma OpeningsWithLast(h: seq<Entry>, openings: seq<nat>)
    requires h != [] && Opens(h, |h| - 1)
    requires forall k :: k in openings <==> Opens(h[..|h| - 1], k)
    ensures forall k :: k in openings + [|h| - 1] <==> Opens(h, k)
  {
    forall k: nat ensures k in openings + [|h| - 1] <==> Opens(h, k) {
      if k < |h| - 1 { OpensInPrefix(h, k); }
    }
  }

  lemma SheetOpened(h: seq<Entry>, sheets: seq<Runsheet>, openings: seq<nat>, sheets': seq<Runsheet>)
    requires h != [] && AreSheetsOf(h[..|h| - 1], sheets, openings) && Opens(h, |h| - 1)
    requires sheets' == sheets + [Runsheet(HeaderOf(h[|h| - 1]), Listed(UpdateOf(h[|h| - 1])))]
    ensures AreSheetsOf(h, sheets', openings + [|h| - 1])
  {
    var n := |h| - 1;
    OpeningsWithLast(h, openings);
    forall i | 0 <= i < |sheets'|
      ensures CoversSegment(h, sheets'[i], (openings + [n])[i], SegmentEnd(openings + [n], i, |h|))
    {
      if i < |sheets| {
        SegmentOfPrefix(h, n, sheets[i], openings[i], SegmentEnd(openings, i, n));
      } else {
        SegmentOpens(h, n);
      }
    }
  }

  lemma SheetKept(h: seq<Entry>, sheets: seq<Runsheet>, openings: seq<nat>, sheets': seq<Runsheet>)
    requires h != [] && AreSheetsOf(h[..|h| - 1], sheets, openings) && !Opens(h, |h| - 1)
    requires sheets' == if sheets == [] || UpdateOf(h[|h| - 1]).None? then sheets
                        else sheets[|sheets| - 1 := sheets[|sheets| - 1].(updates := Listed(UpdateOf(h[|h| - 1])))]
    ensures AreSheetsOf(h, sheets', openings)
  {
    var n := |h| - 1;
    forall k: nat ensures k in openings <==> Opens(h, k) {
      if k < n { OpensInPrefix(h, k); }
    }
    forall i | 0 <= i < |sheets| ensures CoversSegment(h, sheets'[i], openings[i], SegmentEnd(openings, i, |h|)) {
      SegmentOfPrefix(h, n, sheets[i], openings[i], SegmentEnd(openings, i, n));
      if i + 1 == |sheets| {
        SegmentGrows(h, sheets[i], openings[i], n);
      }
    }
  }

  lemma EntryKeepsSheets(h: seq<Entry>, sheets: seq<Runsheet>, openings: seq<nat>) returns (openings': seq<nat>)
    requires h != [] && AreSheetsOf(h[..|h| - 1], sheets, openings)
    requires sheets == [] <==> forall k :: 0 <= k < |h| - 1 ==> !Starts(h[k])
    ensures AreSheetsOf(h, WithEntry(sheets, h[|h| - 1]), openings')
  {
    var e := h[|h| - 1];
    if e.runsheet.Some? || (sheets == [] && Starts(e)) {
      SheetOpened(h, sheets, openings, WithEntry(sheets, e));
      openings' := openings + [|h| - 1];
    } else {
      SheetKept(h, sheets, openings, WithEntry(sheets, e));
      openings' := openings;
    }
  }

  /** The fold keeps, for every segment between two opening entries, the opening entry's header and the
      segment's last update. */
  lemma {:induction false} RunsheetsCoverSegments(h: seq<Entry>) returns (openings: seq<nat>)
    ensures AreSheetsOf(h, Runsheets(h), openings)
  {
    if h == [] {
      openings := [];
    } else {
      var init := h[..|h| - 1];
      openings := RunsheetsCoverSegments(init);
      NoSheetUntilStarted(init);
      assert forall k :: 0 <= k < |init| ==> init[k] == h[k];
      openings := EntryKeepsSheets(h, Runsheets(init), openings);
    }
  }

  /** The sheet after an update: it replaces whatever the sheet said. */
  predicate Replaces(before: seq<Runsheet>, update: Update, after: seq<Runsheet>)
    requires before != []
  {
    && |after| == |before| && after[..|after| - 1] == before[..|before| - 1]
    && after[|after| - 1].header == before[|before| - 1].header && after[|after| - 1].updates == [update]
  }

  /** What one entry does to the sheets. A runsheet opens one, without an update, whatever else it says; an
      attempt replaces the update of the last sheet, and opens a blank one if there is none; so does a
      success, if there is no attempt; a mere "delivered" only replaces; anything else changes nothing. */
  lemma EntryOnSheets(h: seq<Entry>, e: Entry)
    ensures
      var before, after := Runsheets(h), Runsheets(h + [e]);
      if e.runsheet.Some? then
        after == before + [Runsheet(Header(e.runsheet.value, e.at, e.coordinate), [])]
      else if e.attempt.Some? || e.success.Some? then
        var update := Update(if e.attempt.Some? then e.attempt.value else e.success.value, e.at, e.coordinate);
        if before == [] then after == [Runsheet(Blank, [update])] else Replaces(before, update, after)
      else if e.saysDelivered && before != [] then
        Replaces(before, Update(UpdateDetail(None, Some("DELIVERED"), None), e.at, e.coordinate), after)
      else after == before
  {
    assert (h + [e])[..|h|] == h;
  }

  // ---------- the final status ----------

  predicate SaysDelivered(status: Option<string>) {
    status.Some? && EqIgnoringCase(status.value, DELIVERED)
  }

  predicate HasDelivered(updates: seq<Update>) {
    exists k :: 0 <= k < |updates| && SaysDelivered(updates[k].detail.status)
  }

  function OfficerShown(final: FinalStatus): Option<string> {
    match (final.officerName, final.officerId)
    case (Some(name), Some(id)) => Some(name + " (" + id + ")")
    case (Some(name), None) => Some(name)
    case _ => None
  }

  /** The update made up from the final status. */
  function FinalUpdate(final: FinalStatus, podCoordinate: Option<string>): Update {
    Update(UpdateDetail(OfficerShown(final), final.status, None), final.at, podCoordinate)
  }

  /** The last sheet as shown: with the final status's own update if that says delivered and the sheet
      does not. */
  function Settled(sheet: Runsheet, final: FinalStatus, podCoordinate: Option<string>): Runsheet {
    if SaysDelivered(final.status) && !HasDelivered(sheet.updates)
    then sheet.(updates := [FinalUpdate(final, podCoordinate)])
    else sheet
  }

  function Shown(sheets: seq<Runsheet>, final: FinalStatus, podCoordinate: Option<string>): seq<Runsheet> {
    if sheets == [] then [] else sheets[|sheets| - 1 := Settled(sheets[|sheets| - 1], final, podCoordinate)]
  }

  lemma SheetsAreShort(h: seq<Entry>)
    ensures forall i :: 0 <= i < |Runsheets(h)| ==> |Runsheets(h)[i].updates| <= 1
  {
    var openings := RunsheetsCoverSegments(h);
    forall i | 0 <= i < |Runsheets(h)| ensures |Runsheets(h)[i].updates| <= 1 {
      assert CoversSegment(h, Runsheets(h)[i], openings[i], SegmentEnd(openings, i, |h|));
    }
  }

  /** "delivered", in any case. */
  predicate ReadsDelivered(status: Option<string>, delivered: string) {
    status.Some? && Upper(status.value) == delivered
  }

  lemma DeliveredIff(updates: seq<Update>, delivered: string)
    requires delivered == "DELIVERED"
    ensures forall status :: SaysDelivered(status) <==> ReadsDelivered(status, delivered)
    ensures HasDelivered(updates) <==>
      exists k :: 0 <= k < |updates| && ReadsDelivered(updates[k].detail.status, delivered)
  {
    assert Upper(DELIVERED) == delivered;
    assert forall status :: SaysDelivered(status) <==> ReadsDelivered(status, delivered);
  }

  /** Every sheet shown has at most one update. The final status changes nothing, unless it is "delivered" in
      any case and the last sheet does not say so: then that sheet's one update is the final status, with
      the officer's name, and his number in brackets if both are known. */
  lemma ShownSheets(
    h: seq<Entry>, sheets: seq<Runsheet>, final: FinalStatus, podCoordinate: Option<string>, delivered: string)
    requires sheets == Runsheets(h) && delivered == "DELIVERED"
    ensures final.officerName.None? ==> OfficerShown(final).None?
    ensures forall name :: final.officerName == Some(name) ==>
      && (final.officerId.None? ==> OfficerShown(final) == Some(name))
      && forall id :: final.officerId == Some(id) ==> OfficerShown(final) == Some(name + " (" + id + ")")
    ensures var shown := Shown(sheets, final, podCoordinate);
      var last := if sheets == [] then [] else sheets[|sheets| - 1].updates;
      && (forall i :: 0 <= i < |shown| ==> |shown[i].updates| <= 1)
      && if ReadsDelivered(final.status, delivered) && sheets != []
            && !exists k :: 0 <= k < |last| && ReadsDelivered(last[k].detail.status, delivered)
         then
           var update := Update(UpdateDetail(OfficerShown(final), final.status, None), final.at, podCoordinate);
           Replaces(sheets, update, shown)
         else shown == sheets
  {
    SheetsAreShort(h);
    DeliveredIff(if sheets == [] then [] else sheets[|sheets| - 1].updates, delivered);
  }

  // ---------- the pass itself ----------

  /** The bag table when the entries of h have been seen. */
  ghost predicate TableOf(h: seq<Entry>, table: map<string, BagSummary>) {
    && (forall bag :: bag in table <==> bag in BagOrder(h))
    && (forall bag :: bag in table ==> table[bag] == BagSummaryOf(h, bag))
  }

  method RecordBag(ghost h: seq<Entry>, e: Entry, table: map<string, BagSummary>, order: seq<string>)
    returns (table': map<string, BagSummary>, order': seq<string>)
    requires TableOf(h, table) && order == BagOrder(h)
    ensures TableOf(h + [e], table') && order' == BagOrder(h + [e])
  {
    assert (h + [e])[..|h|] == h;
    NeverNamed(h);
    table', order' := table, order;
    if !e.bagging.Absent? {
      if e.bagging.Of? {
        var bag := e.bagging.bag;
        if bag !in table' {
          order' := order' + [bag];
          table' := table'[bag := BagSummary(bag, None, None)];
        }
        table' := table'[bag := table'[bag].(bagging := Some(Event(e.bagging.who, e.at)))];
      }
    } else if e.unbagging.Of? {
      var bag := e.unbagging.bag;
      if bag !in table' {
        order' := order' + [bag];
        table' := table'[bag := BagSummary(bag, None, None)];
      }
      table' := table'[bag := table'[bag].(unbagging := Some(Event(e.unbagging.who, e.at)))];
    }
  }

  lemma {:induction false} NeverNamed(h: seq<Entry>)
    ensures forall bag :: bag !in BagOrder(h) ==> LastBagging(h, bag).None? && LastUnbagging(h, bag).None?
  {
    if h != [] {
      NeverNamed(h[..|h| - 1]);
    }
  }

  /** Takes every bag out of the table in the order of the list. */
  method TakeBags(ghost h: seq<Entry>, table: map<string, BagSummary>, order: seq<string>)
    returns (bags: seq<BagSummary>)
    requires TableOf(h, table) && order == BagOrder(h)
    ensures |bags| == |order| && forall i :: 0 <= i < |bags| ==> bags[i] == BagSummaryOf(h, order[i])
  {
    ghost var firsts := BagOrderIsFirstMentionOrder(h);
    var rest := table;
    bags := [];
    for i := 0 to |order|
      invariant |bags| == i && forall j :: 0 <= j < i ==> bags[j] == BagSummaryOf(h, order[j])
      invariant forall j :: i <= j < |order| ==> order[j] in rest && rest[order[j]] == BagSummaryOf(h, order[j])
    {
      if order[i] in rest {
        bags := bags + [rest[order[i]]];
        rest := rest - {order[i]};
      }
    }
  }

  /** `current_delivery_idx`: always the last sheet. */
  function Current(sheets: seq<Runsheet>): Option<nat> {
    if sheets == [] then None else Some(|sheets| - 1)
  }

  /** The part of the pass that concerns deliveries. */
  method RecordDelivery(e: Entry, sheets: seq<Runsheet>, current: Option<nat>)
    returns (sheets': seq<Runsheet>, current': Option<nat>)
    requires current == Current(sheets)
    ensures sheets' == WithEntry(sheets, e) && current' == Current(sheets')
  {
    sheets', current' := sheets, current;
    if e.runsheet.Some? {
      sheets' := sheets + [Runsheet(Header(e.runsheet.value, e.at, e.coordinate), [])];
      return sheets', Some(|sheets'| - 1);
    }
    if e.attempt.Some? || e.success.Some? {
      var update := Update(if e.attempt.Some? then e.attempt.value else e.success.value, e.at, e.coordinate);
      if current.Some? && current.value < |sheets| {
        sheets' := sheets[current.value := sheets[current.value].(updates := [update])];
        return;
      }
      sheets' := sheets + [Runsheet(Blank, [update])];
      current' := Some(|sheets'| - 1);
    } else if e.saysDelivered {
      var update := Update(UpdateDetail(None, Some(DELIVERED), None), e.at, e.coordinate);
      if current.Some? && current.value < |sheets| {
        sheets' := sheets[current.value := sheets[current.value].(updates := [update])];
      }
    }
  }

  /** `build_history_summary`. */
  method BuildHistorySummary(h: seq<Entry>, final: FinalStatus, podCoordinate: Option<string>)
    returns (summary: Summary)
    ensures summary.irregularities == Irregularities(h) && summary.manifestR7s == ManifestR7s(h)
    ensures |summary.bags| == |BagOrder(h)|
    ensures forall i :: 0 <= i < |summary.bags| ==> summary.bags[i] == BagSummaryOf(h, BagOrder(h)[i])
    ensures summary.runsheets == Shown(Runsheets(h), final, podCoordinate)
  {
    var irregularities, manifests, table, order, sheets, current := [], [], map[], [], [], None;
    for i := 0 to |h|
      invariant irregularities == Irregularities(h[..i]) && manifests == ManifestR7s(h[..i])
      invariant TableOf(h[..i], table) && order == BagOrder(h[..i])
      invariant sheets == Runsheets(h[..i]) && current == Current(sheets)
    {
      var e := h[i];
      assert h[..i + 1] == h[..i] + [e] && h[..i + 1][..i] == h[..i];
      if e.irregularity.Some? {
        irregularities := irregularities + [Irregularity(e.irregularity.value, e.at)];
      }
      table, order := RecordBag(h[..i], e, table, order);
      if e.manifestR7.Some? {
        manifests := manifests + [ManifestR7(e.manifestR7.value, e.at)];
      }
      sheets, current := RecordDelivery(e, sheets, current);
    }
    assert h[..|h|] == h;
    if SaysDelivered(final.status) && sheets != [] && !HasDelivered(sheets[|sheets| - 1].updates) {
      var last := sheets[|sheets| - 1];
      sheets := sheets[|sheets| - 1 := last.(updates := [FinalUpdate(final, podCoordinate)])];
    }
    var bags := TakeBags(h, table, order);
    summary := Summary(irregularities, bags, manifests, sheets);
  }
}
