/** The contact cache: phones of a shipment, merged over every store, with provenance and expiry. */
module ContactCache {
  import opened LruPrune
  import opened Options
  import opened Text

  const TTL_MS := 90 * 24 * 60 * 60 * 1000
  const FAILURE_TTL_MS := 5 * 60 * 1000
  const LAST_USED_INTERVAL_MS := 60 * 60 * 1000

  datatype Contact = Contact(sender: Option<string>, recipient: Option<string>)

  datatype Status = Complete | Partial | Missing | Failed

  datatype Row = Row(contact: Contact, status: Status, source: string, fetchedAt: nat, lastUsedAt: nat)

  datatype Entry = Entry(contact: Contact, status: Status, source: string, fetchedAt: nat)

  // ---------- phone numbers ----------

  /** Every run of spaces as one blank. */
  function Collapse(s: string, afterSpace: bool): string {
    if s == [] then []
    else if IsSpace(s[0]) then (if afterSpace then [] else [' ']) + Collapse(s[1..], true)
    else [s[0]] + Collapse(s[1..], false)
  }

  /** Single blanks only. */
  predicate Tidy(s: string) {
    && (forall i :: 0 <= i < |s| && IsSpace(s[i]) ==> s[i] == ' ')
    && (forall i :: 0 < i < |s| ==> !(IsSpace(s[i - 1]) && IsSpace(s[i])))
  }

  lemma {:induction false} CollapseTidies(s: string, afterSpace: bool)
    ensures Tidy(Collapse(s, afterSpace))
    ensures afterSpace && Collapse(s, afterSpace) != [] ==> !IsSpace(Collapse(s, afterSpace)[0])
  {
    if s != [] {
      CollapseTidies(s[1..], IsSpace(s[0]));
    }
  }

  lemma {:induction false} TrimKeepsTidy(s: string)
    requires Tidy(s)
    ensures Tidy(Trim(s))
  {
    if s != [] && IsSpace(s[0]) {
      TrimKeepsTidy(s[1..]);
    } else if s != [] && IsSpace(s[|s| - 1]) {
      TrimKeepsTidy(s[..|s| - 1]);
    }
  }

  lemma {:induction false} WordStays(word: string, after: string, afterSpace: bool)
    requires IsWord(word)
    ensures Collapse(word + after, afterSpace) == word + Collapse(after, false)
  {
    assert (word + after)[1..] == word[1..] + after;
    if |word| > 1 {
      WordStays(word[1..], after, false);
    } else {
      assert word[1..] + after == after;
    }
  }

  lemma {:induction false} CollapseKeepsWords(s: string, afterSpace: bool)
    ensures Words(Collapse(s, afterSpace)) == Words(s)
    decreases |s|
  {
    if s != [] && IsSpace(s[0]) {
      CollapseKeepsWords(s[1..], true);
      BehindSpace(' ', Collapse(s[1..], true));
      assert Collapse(s, afterSpace) == if afterSpace then Collapse(s[1..], true) else " " + Collapse(s[1..], true);
    } else if s != [] {
      FirstWord(s);
      var word, after := s[..WordLength(s)], s[WordLength(s)..];
      assert s == word + after;
      WordStays(word, after, afterSpace);
      CollapseKeepsWords(after, false);
      WordAndRest(word, Collapse(after, false));
    }
  }

  lemma JoinedFirst(word: string, words: seq<string>)
    requires words != []
    ensures Joined([word] + words) == word + (" " + Joined(words))
  {
    assert ([word] + words)[1..] == words;
  }

  lemma {:induction false} TidyIsJoined(s: string)
    requires Tidy(s) && (s != [] ==> !IsSpace(s[0]) && !IsSpace(s[|s| - 1]))
    ensures s == Joined(Words(s))
    decreases |s|
  {
    if s != [] {
      FirstWord(s);
      var n := WordLength(s);
      var word := s[..n];
      if n < |s| {
        var rest := s[n + 1..];
        assert s[n..][0] == s[n] == ' ' && !IsSpace(rest[0]) && rest[|rest| - 1] == s[|s| - 1];
        TidyIsJoined(rest);
        assert s == word + (" " + rest);
        WordAndRest(word, " " + rest);
        BehindSpace(' ', rest);
        JoinedFirst(word, Words(rest));
      } else {
        assert s == word + [] && Words([]) == [];
        WordAndRest(word, []);
      }
    }
  }

  lemma CollapsedIsJoined(s: string)
    ensures Trim(Collapse(s, false)) == Joined(Words(s))
  {
    CollapseTidies(s, false);
    TrimKeepsTidy(Collapse(s, false));
    TidyIsJoined(Trim(Collapse(s, false)));
    TrimKeepsWords(Collapse(s, false));
    CollapseKeepsWords(s, false);
  }

  function PieceOf(ch: char, afterSpace: bool): string {
    if !IsSpace(ch) then [ch] else if afterSpace then [] else [' ']
  }

  lemma OnePiece(s: string, i: nat, afterSpace: bool, done: string)
    requires i < |s|
    ensures done + Collapse(s[i..], afterSpace)
         == done + PieceOf(s[i], afterSpace) + Collapse(s[i + 1..], IsSpace(s[i]))
  {
    assert s[i..][1..] == s[i + 1..];
    assert Collapse(s[i..], afterSpace) == PieceOf(s[i], afterSpace) + Collapse(s[i + 1..], IsSpace(s[i]));
  }

  /** `normalize_text`: the words, one blank between two of them. */
  method NormalizeText(input: string) returns (result: string)
    ensures result == Joined(Words(input))
  {
    result := [];
    var prevIsSpace := false;
    assert input[0..] == input;
    for i := 0 to |input|
      invariant Collapse(input, false) == result + Collapse(input[i..], prevIsSpace)
    {
      var ch := input[i];
      OnePiece(input, i, prevIsSpace, result);
      ghost var done := result + PieceOf(ch, prevIsSpace);
      if IsSpace(ch) {
        if !prevIsSpace {
          result := result + [' '];
        }
      } else {
        result := result + [ch];
      }
      prevIsSpace := IsSpace(ch);
      assert result == done;
    }
    assert Collapse(input[|input|..], prevIsSpace) == [];
    assert result == Collapse(input, false);
    CollapsedIsJoined(input);
    result := Trim(result);
  }

  function Digits(s: string): nat {
    if s == [] then 0 else Digits(s[..|s| - 1]) + if IsDigit(s[|s| - 1]) then 1 else 0
  }

  predicate IsPhone(s: string) {
    && 7 <= |s| <= 30
    && 7 <= Digits(s) <= 16
    && (forall i :: 0 <= i < |s| ==> IsDigit(s[i]) || s[i] in "+ ()-")
    && (exists i :: 0 <= i < |s| && '1' <= s[i] <= '9')
  }

  function NormalizePhone(value: string): (phone: Option<string>)
    ensures phone.Some? ==> IsPhone(phone.value)
  {
    var s := Joined(Words(value));
    if IsPhone(s) then Some(s) else None
  }

  /** Re-reading a stored phone gives the same phone. */
  lemma NormalizedPhoneIsStable(value: string)
    requires NormalizePhone(value).Some?
    ensures NormalizePhone(NormalizePhone(value).value) == NormalizePhone(value)
  {
    AllAreWords(value);
    WordsOfJoined(Words(value));
  }

  function DigitPlaces(s: string): set<nat> {
    set i: nat | i < |s| && '0' <= s[i] <= '9'
  }

  lemma {:induction false} DigitsAreCounted(s: string)
    ensures Digits(s) == |DigitPlaces(s)|
  {
    if s != [] {
      var init, last: nat := s[..|s| - 1], |s| - 1;
      DigitsAreCounted(init);
      assert DigitPlaces(s) == DigitPlaces(init) + if '0' <= s[last] <= '9' then {last} else {};
    }
  }

  /** The slot is read as this phone: its words with single blanks, of 7 to 30 characters, 7 to 16 of them
      digits and not only zeros, with nothing else than plus, blank, brackets and dash. */
  predicate IsReadAs(slot: Option<string>, phone: string) {
    && slot.Some? && phone == Joined(Words(slot.value))
    && 7 <= |phone| <= 30 && 7 <= |DigitPlaces(phone)| <= 16
    && (forall c :: c in phone ==> '0' <= c <= '9' || c == '+' || c == ' ' || c == '(' || c == ')' || c == '-')
    && (exists c :: c in phone && '1' <= c <= '9')
  }

  lemma SlotIff(slot: Option<string>, phone: string)
    ensures NormalizeSlot(slot) == Some(phone) <==> IsReadAs(slot, phone)
  {
    if slot.Some? && phone == Joined(Words(slot.value)) {
      DigitsAreCounted(phone);
      if IsPhone(phone) {
        var i :| 0 <= i < |phone| && '1' <= phone[i] <= '9';
        assert phone[i] in phone;
      }
      assert forall i :: 0 <= i < |phone| ==> phone[i] in phone;
    }
  }

  function NormalizeSlot(phone: Option<string>): Option<string> {
    if phone.Some? then NormalizePhone(phone.value) else None
  }

  function Normalize(contact: Contact): Contact {
    Contact(NormalizeSlot(contact.sender), NormalizeSlot(contact.recipient))
  }

  predicate IsNormal(contact: Contact) {
    Normalize(contact) == contact
  }

  lemma NormalizeIsStable(contact: Contact)
    ensures IsNormal(Normalize(contact))
  {
    if Normalize(contact).sender.Some? { NormalizedPhoneIsStable(contact.sender.value); }
    if Normalize(contact).recipient.Some? { NormalizedPhoneIsStable(contact.recipient.value); }
  }

  // ---------- status and expiry ----------

  function ContactStatus(contact: Contact): Status {
    match (contact.sender.Some?, contact.recipient.Some?)
    case (true, true) => Complete
    case (false, false) => Missing
    case _ => Partial
  }

  function Ttl(status: Status): nat {
    if status == Failed || status == Missing then FAILURE_TTL_MS else TTL_MS
  }

  /** What `get` calls expired. */
  predicate IsExpired(row: Row, now: nat) {
    row.fetchedAt + Ttl(row.status) <= now
  }

  /** What the TTL half of `prune_connection` deletes. */
  predicate IsPruned(row: Row, now: nat) {
    row.fetchedAt <= Saturating(now, Ttl(row.status))
  }

  /** They are the same rows, except that a clock still inside the first window also prunes rows
      stamped with the epoch itself. */
  lemma PruningAgreesWithExpiry(row: Row, now: nat)
    ensures (IsPruned(row, now) == IsExpired(row, now)) <==> (now >= Ttl(row.status) || row.fetchedAt > 0)
  {
  }

  // ---------- one row ----------

  function Read(row: Option<Row>, now: nat): Option<Entry> {
    if row.None? || IsExpired(row.value, now) then None
    else
      var contact := Normalize(row.value.contact);
      var status := if row.value.status == Complete then ContactStatus(contact) else row.value.status;
      Some(Entry(contact, status, row.value.source, row.value.fetchedAt))
  }

  /** The phones that a store at `now` still finds: any row of the last 90 days, whatever its status. */
  function Previous(row: Option<Row>, now: nat): Option<Row> {
    if row.Some? && row.value.fetchedAt > Saturating(now, TTL_MS) then row else None
  }

  function Merged(newer: Contact, previous: Contact): Contact {
    Contact(Or(newer.sender, previous.sender), Or(newer.recipient, previous.recipient))
  }

  predicate Retains(newer: Contact, previous: Contact) {
    (newer.sender.None? && previous.sender.Some?) || (newer.recipient.None? && previous.recipient.Some?)
  }

  predicate HasPhone(contact: Contact) {
    contact.sender.Some? || contact.recipient.Some?
  }

  function MergedSource(newer: Contact, source: string, previous: Contact, previousSource: string): string {
    if !Retains(newer, previous) then source
    else if HasPhone(newer) && previousSource != source then "mixed"
    else previousSource
  }

  /** `store_with_source`: `readAt` and `now` are its two clock readings. */
  function Recorded(row: Option<Row>, contact: Contact, failed: bool, source: string, readAt: nat, now: nat): Row {
    var newer := Normalize(contact);
    var previous := Previous(row, readAt);
    var merged := if previous.Some? then Merged(newer, Normalize(previous.value.contact)) else newer;
    var provenance :=
      if previous.Some? then MergedSource(newer, source, Normalize(previous.value.contact), previous.value.source)
      else source;
    var status := if failed then (if HasPhone(merged) then Partial else Failed) else ContactStatus(merged);
    Row(merged, status, provenance, now, now)
  }

  predicate RowSound(row: Row) {
    && IsNormal(row.contact)
    && (row.status == Complete ==> row.contact.sender.Some? && row.contact.recipient.Some?)
    && (row.status == Partial ==> HasPhone(row.contact))
    && (row.status == Missing || row.status == Failed ==> !HasPhone(row.contact))
  }

  lemma MergedIsNormal(newer: Contact, previous: Contact)
    requires IsNormal(newer) && IsNormal(previous)
    ensures IsNormal(Merged(newer, previous))
  {
  }

  lemma RecordedIsSound(row: Option<Row>, contact: Contact, failed: bool, source: string, readAt: nat, now: nat)
    ensures RowSound(Recorded(row, contact, failed, source, readAt, now))
  {
    NormalizeIsStable(contact);
    if row.Some? {
      NormalizeIsStable(row.value.contact);
      MergedIsNormal(Normalize(contact), Normalize(row.value.contact));
    }
  }

  /** A read reports exactly the stored phones, with the status they justify. */
  lemma ReadsAreHonest(row: Row, now: nat)
    requires RowSound(row) && !IsExpired(row, now)
    ensures Read(Some(row), now) == Some(Entry(row.contact, row.status, row.source, row.fetchedAt))
  {
  }

  /** Provenance: what the label says about where the phones came from. */
  lemma ProvenanceOfMerge(row: Row, contact: Contact, failed: bool, source: string, readAt: nat, now: nat)
    requires RowSound(row) && Previous(Some(row), readAt).Some?
    ensures var newer := Normalize(contact); var after := Recorded(Some(row), contact, failed, source, readAt, now);
      && (after.contact == newer ==> after.source == source)
      && (after.contact != newer && !HasPhone(newer) ==> after.source == row.source && after.contact == row.contact)
      && (after.contact != newer && HasPhone(newer) ==>
            after.source == if row.source == source then source else "mixed")
  {
  }

  function WindowOf(contact: Contact): nat {
    if contact.sender.Some? || contact.recipient.Some? then TTL_MS else FAILURE_TTL_MS
  }

  /** Without a phone a row is answered and kept for five minutes only, so that the lookup is tried again;
      with one, for 90 days. Pruning also takes a row stamped with the epoch itself. */
  lemma WindowOfRow(row: Row, now: nat)
    requires RowSound(row)
    ensures var window := WindowOf(row.contact);
      && (Read(Some(row), now).None? <==> row.fetchedAt + window <= now)
      && (IsPruned(row, now) <==> row.fetchedAt + window <= now || row.fetchedAt == 0)
  {
  }

  /** The status of what is stored: a result says how many phones there are, a failure only whether any. */
  lemma StatusOfRecorded(row: Option<Row>, contact: Contact, failed: bool, source: string, readAt: nat, now: nat)
    ensures var after := Recorded(row, contact, failed, source, readAt, now);
      && after.fetchedAt == after.lastUsedAt == now
      && (after.status == Failed <==> failed && !HasPhone(after.contact))
      && (after.status == Missing <==> !failed && !HasPhone(after.contact))
      && (after.status == Complete <==> !failed && after.contact.sender.Some? && after.contact.recipient.Some?)
  {
  }

  /** What a store leaves in a slot: the phone that the result brings, if it reads as one; if not, the phone
      of the row before, if that is younger than 90 days. */
  ghost predicate IsKept(
    brought: Option<string>, row: Option<Row>, before: Option<string>, readAt: nat, phone: string)
  {
    || IsReadAs(brought, phone)
    || ((forall other :: !IsReadAs(brought, other)) && row.Some? && readAt < row.value.fetchedAt + TTL_MS
        && row.value.fetchedAt > 0 && IsReadAs(before, phone))
  }

  lemma PhonesOfRecorded(
    row: Option<Row>, contact: Contact, failed: bool, source: string, readAt: nat, now: nat, phone: string)
    ensures var after := Recorded(row, contact, failed, source, readAt, now).contact;
      && (after.sender == Some(phone) <==>
            IsKept(contact.sender, row, if row.Some? then row.value.contact.sender else None, readAt, phone))
      && (after.recipient == Some(phone) <==>
            IsKept(contact.recipient, row, if row.Some? then row.value.contact.recipient else None, readAt, phone))
  {
    forall slot, other ensures NormalizeSlot(slot) == Some(other) <==> IsReadAs(slot, other) {
      SlotIff(slot, other);
    }
    assert NormalizeSlot(contact.sender).Some? ==> IsReadAs(contact.sender, NormalizeSlot(contact.sender).value);
    assert NormalizeSlot(contact.recipient).Some? ==>
      IsReadAs(contact.recipient, NormalizeSlot(contact.recipient).value);
  }

  // ---------- runs of stores ----------

  /** One call of a store function: a lookup result, or a recorded failure with nothing in it. */
  datatype Store = Store(contact: Contact, failed: bool, source: string, readAt: nat, now: nat)

  function After(row: Option<Row>, store: Store): Row {
    Recorded(row, store.contact, store.failed, store.source, store.readAt, store.now)
  }

  function AfterAll(row: Option<Row>, stores: seq<Store>): Option<Row>
    decreases |stores|
  {
    if stores == [] then row else AfterAll(Some(After(row, stores[0])), stores[1..])
  }

  /** The clock readings of a store are in order, and the store finds the row before it unexpired. */
  predicate InTime(fetchedAt: nat, stores: seq<Store>)
    decreases |stores|
  {
    stores == [] ||
    (fetchedAt <= stores[0].readAt <= stores[0].now && stores[0].readAt < fetchedAt + TTL_MS
     && InTime(stores[0].now, stores[1..]))
  }

  /** The last phone that any store brought for a slot, or the one known before. */
  function LastSender(known: Option<string>, stores: seq<Store>): Option<string>
    decreases |stores|
  {
    if stores == [] then known else LastSender(Or(Normalize(stores[0].contact).sender, known), stores[1..])
  }

  function LastRecipient(known: Option<string>, stores: seq<Store>): Option<string>
    decreases |stores|
  {
    if stores == [] then known else LastRecipient(Or(Normalize(stores[0].contact).recipient, known), stores[1..])
  }

  lemma {:induction false} OnceKnownStaysKnown(known: Option<string>, stores: seq<Store>)
    requires known.Some?
    ensures LastSender(known, stores).Some? && LastRecipient(known, stores).Some?
    decreases |stores|
  {
    if stores != [] {
      OnceKnownStaysKnown(Or(Normalize(stores[0].contact).sender, known), stores[1..]);
      OnceKnownStaysKnown(Or(Normalize(stores[0].contact).recipient, known), stores[1..]);
    }
  }

  lemma OneStoreKeeps(row: Row, store: Store)
    requires RowSound(row) && row.fetchedAt > 0 && store.readAt < row.fetchedAt + TTL_MS
    ensures After(Some(row), store).contact == Merged(Normalize(store.contact), row.contact)
  {
    assert Previous(Some(row), store.readAt) == Some(row);
  }

  /** Over any run of stores and failures, each in time: every slot holds the last phone that any of
      them brought, whatever failed or came back empty in between. Clocks are past the epoch. */
  lemma {:induction false} NoPhoneIsLost(row: Row, stores: seq<Store>)
    requires RowSound(row) && row.fetchedAt > 0 && InTime(row.fetchedAt, stores)
    ensures AfterAll(Some(row), stores).Some?
    ensures RowSound(AfterAll(Some(row), stores).value)
    ensures AfterAll(Some(row), stores).value.contact
         == Contact(LastSender(row.contact.sender, stores), LastRecipient(row.contact.recipient, stores))
    decreases |stores|
  {
    if stores != [] {
      var first := stores[0];
      RecordedIsSound(Some(row), first.contact, first.failed, first.source, first.readAt, first.now);
      OneStoreKeeps(row, first);
      NoPhoneIsLost(After(Some(row), first), stores[1..]);
    }
  }

  // ---------- pruning is invisible ----------

  /** Once the clock is past the first 90 days, pruning changes no later read and no later merge. */
  lemma PruningIsInvisible(row: Row, now: nat, store: Store)
    requires RowSound(row) && TTL_MS <= now <= store.readAt && IsPruned(row, now)
    ensures Read(Some(row), store.readAt).None?
    ensures After(Some(row), store) == After(None, store)
  {
    var newer := Normalize(store.contact);
    assert !HasPhone(row.contact) ==> Merged(newer, Normalize(row.contact)) == newer;
  }

  // ---------- the table ----------

  type Table = map<string, Row>

  function RowIn(table: Table, id: string): Option<Row> {
    if id in table then Some(table[id]) else None
  }

  function UsedAt(row: Row): nat {
    row.lastUsedAt
  }

  function WithoutExpired(table: Table, now: nat): Table {
    map k | k in table && !IsPruned(table[k], now) :: table[k]
  }

  // ---------- runs of the table ----------

  /** The table after a read: an expired row is gone, and the use of any other is noted at most once an hour. */
  function AfterGet(table: Table, id: string, now: nat): Table {
    if id !in table then table
    else if IsExpired(table[id], now) then table - {id}
    else if Saturating(now, table[id].lastUsedAt) >= LAST_USED_INTERVAL_MS then
      table[id := table[id].(lastUsedAt := now)]
    else table
  }

  datatype Call = Look(id: string, now: nat) | Keep(id: string, store: Store)

  function StoredIn(table: Table, id: string, store: Store): Table {
    WithoutExpired(table[id := After(RowIn(table, id), store)], store.now)
  }

  /** A call takes one table to the next. */
  ghost predicate TableStep(before: Table, call: Call, after: Table) {
    match call
    case Look(id, now) => after == AfterGet(before, id, now)
    case Keep(id, store) => LeastRecentlyUsedGone(StoredIn(before, id, store), UsedAt, after)
  }

  /** The call removes the shipment's row for want of room, though it has not expired. */
  predicate Evicts(before: Table, call: Call, after: Table, id: string) {
    call.Keep? && id in StoredIn(before, call.id, call.store) && id !in after
  }

  /** Rows are only evicted when there are too many, and only those that were not used later than any that
      stay. */
  lemma EvictsTheLeastUsed(before: Table, call: Call, after: Table, id: string)
    requires TableStep(before, call, after) && Evicts(before, call, after, id)
    ensures var stored := StoredIn(before, call.id, call.store);
      && |stored| > MAX_ENTRIES == |after|
      && forall kept :: kept in after ==> stored[id].lastUsedAt <= stored[kept].lastUsedAt
  {
    var stored := StoredIn(before, call.id, call.store);
    forall kept | kept in after ensures stored[id].lastUsedAt <= stored[kept].lastUsedAt {
      assert UsedAt(stored[id]) <= UsedAt(stored[kept]);
    }
  }

  predicate IsYoung(row: Row, now: nat) {
    row.fetchedAt > 0 && now < row.fetchedAt + WindowOf(row.contact)
  }

  /** What a store leaves: rows within their window only, and not too many. As long as there is room, every
      other such row stays as it was, beside the one stored. */
  lemma StoreKeepsTheYoung(before: Table, id: string, store: Store, after: Table)
    requires TableStep(before, Keep(id, store), after) && forall other :: other in before ==> RowSound(before[other])
    ensures |after| <= MAX_ENTRIES && forall other :: other in after ==> IsYoung(after[other], store.now)
    ensures |after| < MAX_ENTRIES && store.now > 0 ==> id in after && after[id] == After(RowIn(before, id), store)
    ensures |after| < MAX_ENTRIES ==> forall other :: other in before && other != id ==>
      (other in after <==> IsYoung(before[other], store.now)) && (other in after ==> after[other] == before[other])
  {
    RecordedIsSound(RowIn(before, id), store.contact, store.failed, store.source, store.readAt, store.now);
    var upserted := before[id := After(RowIn(before, id), store)];
    forall other | other in upserted
      ensures IsPruned(upserted[other], store.now) <==> !IsYoung(upserted[other], store.now)
    {
      assert RowSound(upserted[other]);
      WindowOfRow(upserted[other], store.now);
    }
  }

  function Begins(call: Call): nat {
    if call.Look? then call.now else call.store.readAt
  }

  function Ends(call: Call): nat {
    if call.Look? then call.now else call.store.now
  }

  function Clock(calls: seq<Call>, n: nat): nat
    requires n <= |calls|
  {
    if n == 0 then 0 else Ends(calls[n - 1])
  }

  ghost predicate IsStepOf(tables: seq<Table>, calls: seq<Call>, n: nat)
    requires n < |calls| < |tables|
  {
    && TableStep(tables[n], calls[n], tables[n + 1])
    && 0 < Begins(calls[n]) <= Ends(calls[n]) && Clock(calls, n) <= Begins(calls[n])
  }

  /** A run from the empty table, with a clock past the epoch that does not go back. */
  ghost predicate IsRun(tables: seq<Table>, calls: seq<Call>) {
    && |tables| == |calls| + 1 && tables[0] == map[]
    && forall n :: 0 <= n < |calls| ==> IsStepOf(tables, calls, n)
  }

  /** The stores for one shipment among the first n calls, since its row was last evicted. */
  function StoresFor(tables: seq<Table>, calls: seq<Call>, n: nat, id: string): seq<Store>
    requires n <= |calls| < |tables|
  {
    if n == 0 || Evicts(tables[n - 1], calls[n - 1], tables[n], id) then [] else
      StoresFor(tables, calls, n - 1, id)
      + if calls[n - 1].Keep? && calls[n - 1].id == id then [calls[n - 1].store] else []
  }

  /** The row is the one that the shipment's own stores make, or that one has expired. */
  ghost predicate Agrees(row: Option<Row>, alone: Option<Row>, clock: nat) {
    if alone.None? then row.None?
    else
      && RowSound(alone.value) && 0 < alone.value.fetchedAt <= clock
      && (row.Some? ==> row.value.(lastUsedAt := 0) == alone.value.(lastUsedAt := 0))
      && (row.None? ==> IsExpired(alone.value, clock))
  }

  lemma AfterAllAppends(row: Option<Row>, stores: seq<Store>, store: Store)
    ensures AfterAll(row, stores + [store]) == Some(After(AfterAll(row, stores), store))
    decreases |stores|
  {
    if stores == [] {
      assert (stores + [store])[1..] == [];
    } else {
      assert (stores + [store])[1..] == stores[1..] + [store];
      AfterAllAppends(Some(After(row, stores[0])), stores[1..], store);
    }
  }

  lemma AloneMovesOn(tables: seq<Table>, calls: seq<Call>, n: nat, id: string)
    requires 0 < n <= |calls| < |tables| && !Evicts(tables[n - 1], calls[n - 1], tables[n], id)
    ensures var call, before := calls[n - 1], AfterAll(None, StoresFor(tables, calls, n - 1, id));
      AfterAll(None, StoresFor(tables, calls, n, id)) ==
        if call.Keep? && call.id == id then Some(After(before, call.store)) else before
  {
    var call, stores := calls[n - 1], StoresFor(tables, calls, n - 1, id);
    if call.Keep? && call.id == id {
      AfterAllAppends(None, stores, call.store);
    } else {
      assert StoresFor(tables, calls, n, id) == stores;
    }
  }

  /** A store makes of an expired row what it makes of none, and does not look at the time of use. */
  lemma StoreAgrees(row: Option<Row>, alone: Option<Row>, clock: nat, store: Store)
    requires Agrees(row, alone, clock) && clock <= store.readAt
    ensures After(row, store) == After(alone, store)
  {
    if alone.Some? && row.None? {
      var newer := Normalize(store.contact);
      assert !HasPhone(alone.value.contact) ==> Merged(newer, Normalize(alone.value.contact)) == newer;
    }
  }

  lemma OwnStoreAgrees(table: Table, id: string, store: Store, alone: Option<Row>, clock: nat)
    requires Agrees(RowIn(table, id), alone, clock) && clock <= store.readAt <= store.now && 0 < store.now
    ensures Agrees(RowIn(StoredIn(table, id, store), id), Some(After(alone, store)), store.now)
  {
    StoreAgrees(RowIn(table, id), alone, clock, store);
    RecordedIsSound(alone, store.contact, store.failed, store.source, store.readAt, store.now);
  }

  lemma OtherStoreAgrees(table: Table, other: string, store: Store, id: string, alone: Option<Row>, clock: nat)
    requires Agrees(RowIn(table, id), alone, clock) && clock <= store.now && other != id
    ensures Agrees(RowIn(StoredIn(table, other, store), id), alone, store.now)
  {
  }

  lemma GetAgrees(table: Table, other: string, now: nat, id: string, alone: Option<Row>, clock: nat)
    requires Agrees(RowIn(table, id), alone, clock) && clock <= now
    ensures Agrees(RowIn(AfterGet(table, other, now), id), alone, now)
  {
  }

  lemma StepAgrees(before: Table, call: Call, after: Table, id: string, alone: Option<Row>, clock: nat)
    requires TableStep(before, call, after) && !Evicts(before, call, after, id)
    requires Agrees(RowIn(before, id), alone, clock) && clock <= Begins(call) <= Ends(call) && 0 < Begins(call)
    ensures Agrees(
      RowIn(after, id), if call.Keep? && call.id == id then Some(After(alone, call.store)) else alone, Ends(call))
  {
    match call
    case Look(other, now) => GetAgrees(before, other, now, id, alone, clock);
    case Keep(other, store) =>
      assert RowIn(after, id) == RowIn(StoredIn(before, other, store), id);
      if other == id {
        OwnStoreAgrees(before, id, store, alone, clock);
      } else {
        OtherStoreAgrees(before, other, store, id, alone, clock);
      }
  }

  lemma StepAgreesAgain(tables: seq<Table>, calls: seq<Call>, n: nat, id: string)
    requires 0 < n <= |calls| < |tables| && IsStepOf(tables, calls, n - 1)
    requires Agrees(RowIn(tables[n - 1], id), AfterAll(None, StoresFor(tables, calls, n - 1, id)), Clock(calls, n - 1))
    ensures Agrees(RowIn(tables[n], id), AfterAll(None, StoresFor(tables, calls, n, id)), Clock(calls, n))
  {
    if !Evicts(tables[n - 1], calls[n - 1], tables[n], id) {
      AloneMovesOn(tables, calls, n, id);
      var alone := AfterAll(None, StoresFor(tables, calls, n - 1, id));
      StepAgrees(tables[n - 1], calls[n - 1], tables[n], id, alone, Clock(calls, n - 1));
    }
  }

  /** In every run of the table, for every shipment: its row is what its own stores, since it was last
      evicted, make of it, as if there were no reads, no pruning and no other shipments; or it is gone and
      that row has expired. */
  lemma {:induction false} TableAgrees(tables: seq<Table>, calls: seq<Call>, n: nat, id: string)
    requires IsRun(tables, calls) && n < |tables|
    ensures Agrees(RowIn(tables[n], id), AfterAll(None, StoresFor(tables, calls, n, id)), Clock(calls, n))
  {
    if n > 0 {
      TableAgrees(tables, calls, n - 1, id);
      assert IsStepOf(tables, calls, n - 1);
      StepAgreesAgain(tables, calls, n, id);
    }
  }

  /** So a read at any later time answers what the shipment's own stores give. */
  lemma ReadsIgnoreTheRest(tables: seq<Table>, calls: seq<Call>, n: nat, id: string, now: nat)
    requires IsRun(tables, calls) && n < |tables| && Clock(calls, n) <= now
    ensures Read(RowIn(tables[n], id), now) == Read(AfterAll(None, StoresFor(tables, calls, n, id)), now)
  {
    TableAgrees(tables, calls, n, id);
  }

  /** No known phone is lost in the table: after a first store, and with none of the later ones too late,
      each slot of the row holds the last phone that any of them brought. */
  lemma NoPhoneIsLostInTheTable(tables: seq<Table>, calls: seq<Call>, n: nat, id: string)
    requires IsRun(tables, calls) && n < |tables|
    requires var stores := StoresFor(tables, calls, n, id);
      stores != [] && 0 < stores[0].now && InTime(stores[0].now, stores[1..])
    ensures var stores := StoresFor(tables, calls, n, id);
      var first := After(None, stores[0]).contact;
      id in tables[n] ==>
        tables[n][id].contact
          == Contact(LastSender(first.sender, stores[1..]), LastRecipient(first.recipient, stores[1..]))
    ensures var alone := AfterAll(None, StoresFor(tables, calls, n, id));
      alone.Some? && !IsExpired(alone.value, Clock(calls, n)) ==> id in tables[n]
  {
    var stores := StoresFor(tables, calls, n, id);
    TableAgrees(tables, calls, n, id);
    var s := stores[0];
    RecordedIsSound(None, s.contact, s.failed, s.source, s.readAt, s.now);
    NoPhoneIsLost(After(None, s), stores[1..]);
  }

  // ---------- the program ----------

  /** The merge of `store_with_source`, step by step. */
  method MergeStore(row: Option<Row>, contact: Contact, failed: bool, source: string, readAt: nat, now: nat)
    returns (stored: Row)
    ensures stored == Recorded(row, contact, failed, source, readAt, now)
  {
    var merged, provenance := Normalize(contact), source;
    if row.Some? && row.value.fetchedAt > Saturating(readAt, TTL_MS) {
      var previous := Normalize(row.value.contact);
      var hasNewer := merged.sender.Some? || merged.recipient.Some?;
      var retained := (merged.sender.None? && previous.sender.Some?)
                   || (merged.recipient.None? && previous.recipient.Some?);
      if merged.sender.None? {
        merged := merged.(sender := previous.sender);
      }
      if merged.recipient.None? {
        merged := merged.(recipient := previous.recipient);
      }
      if retained {
        provenance := if hasNewer && row.value.source != source then "mixed" else row.value.source;
      }
    }
    var status := ContactStatus(merged);
    if failed {
      status := if merged.sender.Some? || merged.recipient.Some? then Partial else Failed;
    }
    stored := Row(merged, status, provenance, now, now);
  }

  class ContactCacheState {
    var rows: Table

    predicate Valid()
      reads this
    {
      forall k :: k in rows ==> RowSound(rows[k])
    }

    constructor ()
      ensures Valid() && rows == map[]
    {
      rows := map[];
    }

    /** Lazy expiry: an expired row is deleted by the read that meets it. */
    method Get(id: string, now: nat) returns (entry: Option<Entry>)
      requires Valid()
      modifies this
      ensures Valid()
      ensures entry == Read(RowIn(old(rows), id), now)
      ensures rows == AfterGet(old(rows), id, now)
      ensures entry.Some? <==> id in old(rows) && now < old(rows)[id].fetchedAt + WindowOf(old(rows)[id].contact)
      ensures entry.Some? ==>
        var row := old(rows)[id];
        && entry.value == Entry(row.contact, row.status, row.source, row.fetchedAt)
        && rows == old(rows)[id := row.(lastUsedAt :=
             if row.lastUsedAt + LAST_USED_INTERVAL_MS <= now then now else row.lastUsedAt)]
      ensures entry.None? ==> id !in rows && rows == old(rows) - {id}
    {
      if id !in rows {
        return None;
      }
      var row := rows[id];
      if row.fetchedAt + Ttl(row.status) <= now {
        rows := rows - {id};
        return None;
      }
      var contact := Normalize(row.contact);
      var status := if row.status == Complete then ContactStatus(contact) else row.status;
      if Saturating(now, row.lastUsedAt) >= LAST_USED_INTERVAL_MS {
        rows := rows[id := row.(lastUsedAt := now)];
      }
      entry := Some(Entry(contact, status, row.source, row.fetchedAt));
    }

    /** `store`, `store_from_source` and, with `failed` and nobody, `store_failure`. */
    method StoreWithSource(id: string, contact: Contact, failed: bool, source: string, readAt: nat, now: nat)
      returns (entry: Entry)
      requires Valid()
      modifies this
      ensures Valid()
      ensures var row := Recorded(RowIn(old(rows), id), contact, failed, source, readAt, now);
        entry == Entry(row.contact, row.status, row.source, now)
      ensures TableStep(old(rows), Keep(id, Store(contact, failed, source, readAt, now)), rows)
    {
      var row := MergeStore(RowIn(rows, id), contact, failed, source, readAt, now);
      RecordedIsSound(RowIn(rows, id), contact, failed, source, readAt, now);
      var upserted := rows[id := row];
      rows := PruneCapacity(map k | k in upserted && !IsPruned(upserted[k], now) :: upserted[k], UsedAt);
      entry := Entry(row.contact, row.status, row.source, now);
    }
  }
}
