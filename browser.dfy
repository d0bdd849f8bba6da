/** The browser script of the static page: the date and number shown in
    the preview, the vendor and payment-terms preview text, the approval
    stamp preview, and the saved vendor and line-item lists kept in
    `localStorage`. Form inputs are text values; the date input is empty
    or a calendar day. The stored lists are given as read back: absent,
    unreadable (a JSON error or not an array), or a list of entries. */
module Browser {
  import opened Common
  import opened Dates
  import Server

  // ---------------------------------------------------------------------
  // Date and number

  /** `formatDate`: `MM/DD/YYYY`, or that placeholder for an empty input. */
  function FormatDate(input: DateInput): string {
    match input
    case NoDate => "MM/DD/YYYY"
    case OnDate(d) => SlashDate(d)
  }

  /** `formatPONumber(dateInput, suffix)`; `None` is an omitted suffix,
      which defaults to `'1'`. An empty date gives the placeholder whatever
      the suffix. */
  function FormatPoNumber(input: DateInput, suffix: Option<string>): string {
    match input
    case NoDate => "CITMMDDYY-1"
    case OnDate(d) => PoNumber(JsDatePart(d), if suffix.Some? then suffix.value else "1")
  }

  /** The number the preview shows: the suffix field `|| '1'`. */
  function PreviewPoNumber(input: DateInput, suffixField: string): string {
    FormatPoNumber(input, Some(if suffixField != "" then suffixField else "1"))
  }

  /** For a date the preview number carries the date's month, day and
      two-digit year and the suffix (1 for an empty field); for no date it
      is the placeholder. */
  lemma {:induction false} PreviewPoNumberFields(input: DateInput, suffixField: string)
    requires ValidInput(input)
    ensures input.NoDate? ==> PreviewPoNumber(input, suffixField) == "CITMMDDYY-1"
    ensures input.OnDate? ==>
              var d := input.date;
              ParsePoNumber(PreviewPoNumber(input, suffixField)) ==
              Some(PoFields(d.month, d.day, d.year % 100,
                            if suffixField != "" then suffixField else "1"))
  {
    if input.OnDate? {
      PoNumberRoundTrip(input.date, if suffixField != "" then suffixField else "1");
    }
  }

  /** From the same calendar fields and suffix text, the preview shows the
      number the server prints and Django would build for that day and
      counter. */
  lemma {:induction false} PreviewNumberAgrees(d: Date, suffixField: string, n: nat)
    requires ValidDate(d)
    ensures PreviewPoNumber(OnDate(d), suffixField) == Server.ServerPoNumber(d, Some(suffixField))
    ensures PreviewPoNumber(OnDate(d), NatToString(n)) == PoNumber(PyDatePart(d), NatToString(n))
  {
    PoNumberRoundTrip(d, if suffixField != "" then suffixField else "1");
    PoNumberRoundTrip(d, NatToString(n));
    NatToStringShape(n);
  }

  /** The placeholder date keeps the slash layout of a real one. */
  lemma {:induction false} FormatDateShape(input: DateInput)
    requires ValidInput(input) && (input.OnDate? ==> input.date.year < 10000)
    ensures var t := FormatDate(input); |t| == 10 && t[2] == '/' && t[5] == '/'
  {
    if input.OnDate? {
      var d := input.date;
      Pad2Facts(d.month);
      Pad2Facts(d.day);
      YearDigits(d.year);
    }
  }

  /** A year from 1000 to 9999 prints in four digits. */
  lemma {:induction false} YearDigits(y: nat)
    requires 1000 <= y < 10000
    ensures |NatToString(y)| == 4
  {
    NatToStringShape(y / 10);
    NatToStringShape(y / 100);
    NatToStringShape(y / 1000);
  }

  // ---------------------------------------------------------------------
  // Vendor and payment-terms preview

  /** `value || fallback` on an input's text. */
  function Or(value: string, fallback: string): string {
    if value != "" then value else fallback
  }

  datatype VendorPreview = VendorPreview(name: string, address: string, cityStateZip: string)

  /** `updatePreviewVendor`. */
  function PreviewVendor(name: string, address: string, city: string, state: string,
                         zip: string, country: string): (p: VendorPreview)
    ensures p.name == Or(name, "--") && p.address == Or(address, "--")
    ensures p.cityStateZip == "--" <==> city == "" && state == "" && zip == ""
    ensures city != "" || state != "" || zip != "" ==>
              p.cityStateZip == Or(city, "--") + ", " + Or(state, "--") + " " + Or(zip, "-----")
                                + " " + Or(country, "USA")
  {
    var line := if city != "" || state != "" || zip != "" then
                  Or(city, "--") + ", " + Or(state, "--") + " " + Or(zip, "-----") + " "
                  + Or(country, "USA")
                else "--";
    VendorPreview(Or(name, "--"), Or(address, "--"), line)
  }

  /** `updatePreviewPaymentTerms`: the lines shown, in order. */
  function PreviewPaymentTerms(line1: bool, line2: bool, paymentDays: string): (lines: seq<string>)
    ensures |lines| == (if line1 then 1 else 0) + (if line2 then 1 else 0)
    ensures line1 ==> lines[0] == "Payment : Net " + Or(paymentDays, "30") + " days"
    ensures line2 ==> lines[|lines| - 1] == Server.DeliveredPrices
  {
    (if line1 then ["Payment : Net " + Or(paymentDays, "30") + " days"] else [])
    + (if line2 then [Server.DeliveredPrices] else [])
  }

  /** The preview shows the lines the server will print for the same
      checkboxes and days. */
  lemma {:induction false} PreviewPaymentTermsAsServer(line1: bool, line2: bool, paymentDays: string)
    ensures PreviewPaymentTerms(line1, line2, paymentDays) ==
            Server.PaymentStack(line1, line2, Some(paymentDays))
  {
    Server.PaymentStackLines(line1, line2, Some(paymentDays));
    var st := Server.PaymentStack(line1, line2, Some(paymentDays));
    var pl := Server.PaymentLine(Some(paymentDays));
    assert pl == "Payment : Net " + Or(paymentDays, "30") + " days";
    if line1 && !line2 { assert pl in st; }
    if line2 && !line1 { assert Server.DeliveredPrices in st; }
  }

  // ---------------------------------------------------------------------
  // Stamp preview

  datatype StampKind = OriginalKind | CitKind

  /** An image in the stamp container with the style values that differ
      between the cases: `right` in pixels, `z-index`, rotation in degrees
      and opacity in hundredths. */
  datatype PreviewStamp = PreviewStamp(kind: StampKind, id: string, right: nat, zIndex: nat,
                                       rotate: int, opacity: nat)

  /** `updateApprovalStamp`. */
  function PreviewStamps(useOriginal: bool, useCit: bool): seq<PreviewStamp> {
    (if useOriginal then [PreviewStamp(OriginalKind, "preview-stamp", 30, 10, -10, 60)] else [])
    + (if useCit then
         if useOriginal then [PreviewStamp(CitKind, "preview-stamp-second", 80, 5, 5, 95)]
         else [PreviewStamp(CitKind, "preview-stamp", 30, 10, -10, 60)]
       else [])
  }

  /** None selected leaves the container empty; one selected shows one
      image in front at right 30px turned -10 degrees; both show the
      original in front and the CIT stamp behind it, 50px further left. */
  lemma {:induction false} PreviewStampsPlaced(useOriginal: bool, useCit: bool)
    ensures var s := PreviewStamps(useOriginal, useCit);
            |s| == (if useOriginal then 1 else 0) + (if useCit then 1 else 0) &&
            (useOriginal != useCit ==>
               s[0].right == 30 && s[0].rotate == -10 && s[0].zIndex == 10 &&
               s[0].id == "preview-stamp" &&
               s[0].kind == (if useOriginal then OriginalKind else CitKind)) &&
            (useOriginal && useCit ==>
               s[0].kind == OriginalKind && s[0].right == 30 && s[0].zIndex == 10 &&
               s[1].kind == CitKind && s[1].right == 80 && s[1].zIndex == 5 &&
               s[1].zIndex < s[0].zIndex && s[0].id != s[1].id)
  {
  }

  // ---------------------------------------------------------------------
  // Saved lists

  /** A stored list as read back from `localStorage`. */
  datatype Stored<T> = Absent | Unreadable | Items(items: seq<T>)

  /** What the save functions start from: the stored list, or nothing. */
  function ListOf<T>(s: Stored<T>): seq<T> {
    if s.Items? then s.items else []
  }

  /** The first entry whose key matches `key` ignoring case, as
      `findIndex` finds it. */
  function FirstMatch<T>(xs: seq<T>, keyOf: T -> string, key: string): (r: Option<nat>)
    ensures r.None? <==> forall i :: 0 <= i < |xs| ==> !SameIgnoringCase(keyOf(xs[i]), key)
    ensures r.Some? ==> r.value < |xs| && SameIgnoringCase(keyOf(xs[r.value]), key) &&
                        forall i :: 0 <= i < r.value ==> !SameIgnoringCase(keyOf(xs[i]), key)
  {
    if xs == [] then None
    else if SameIgnoringCase(keyOf(xs[0]), key) then Some(0)
    else
      match FirstMatch(xs[1..], keyOf, key)
      case None => None
      case Some(i) => Some(i + 1)
  }

  /** Replace the first entry with the same key in place, or append. */
  function Upsert<T>(xs: seq<T>, keyOf: T -> string, entry: T): seq<T> {
    match FirstMatch(xs, keyOf, keyOf(entry))
    case Some(i) => xs[i := entry]
    case None => xs + [entry]
  }

  /** An upsert writes the entry at the first matching place, or grows the
      list by it, and leaves every other entry where it was. */
  lemma {:induction false} UpsertEffect<T>(xs: seq<T>, keyOf: T -> string, entry: T)
    ensures var r := Upsert(xs, keyOf, entry);
            var m := FirstMatch(xs, keyOf, keyOf(entry));
            (m.Some? ==> |r| == |xs| && r[m.value] == entry) &&
            (m.None? ==> |r| == |xs| + 1 && r[|xs|] == entry) &&
            (forall i :: 0 <= i < |xs| && m != Some(i) ==> r[i] == xs[i])
  {
  }

  /** After an upsert the entry is the first one with its key. */
  lemma {:induction false} UpsertFinds<T>(xs: seq<T>, keyOf: T -> string, entry: T)
    ensures var r := Upsert(xs, keyOf, entry);
            var m := FirstMatch(r, keyOf, keyOf(entry));
            m.Some? && r[m.value] == entry
  {
    var r := Upsert(xs, keyOf, entry);
    var m := FirstMatch(xs, keyOf, keyOf(entry));
    if m.Some? {
      assert SameIgnoringCase(keyOf(r[m.value]), keyOf(entry));
      assert forall i :: 0 <= i < m.value ==> r[i] == xs[i];
      assert FirstMatch(r, keyOf, keyOf(entry)) == m;
    } else {
      assert SameIgnoringCase(keyOf(r[|xs|]), keyOf(entry));
      assert forall i :: 0 <= i < |xs| ==> r[i] == xs[i];
    }
  }

  /** Upserting the same entry twice is upserting it once. */
  lemma {:induction false} UpsertIdempotent<T>(xs: seq<T>, keyOf: T -> string, entry: T)
    ensures Upsert(Upsert(xs, keyOf, entry), keyOf, entry) == Upsert(xs, keyOf, entry)
  {
    UpsertFinds(xs, keyOf, entry);
    var r := Upsert(xs, keyOf, entry);
    var m := FirstMatch(r, keyOf, keyOf(entry));
    assert r[m.value := entry] == r;
  }

  /** No two entries share a key, ignoring case. */
  predicate DistinctKeys<T>(xs: seq<T>, keyOf: T -> string) {
    forall i, j :: 0 <= i < j < |xs| ==> !SameIgnoringCase(keyOf(xs[i]), keyOf(xs[j]))
  }

  /** Upserts keep the keys of a list distinct. */
  lemma {:induction false} UpsertKeepsDistinct<T>(xs: seq<T>, keyOf: T -> string, entry: T)
    requires DistinctKeys(xs, keyOf)
    ensures DistinctKeys(Upsert(xs, keyOf, entry), keyOf)
  {
    var r := Upsert(xs, keyOf, entry);
    var m := FirstMatch(xs, keyOf, keyOf(entry));
    forall i, j | 0 <= i < j < |r| ensures !SameIgnoringCase(keyOf(r[i]), keyOf(r[j])) {
      if m.Some? {
        if i == m.value {
          assert SameIgnoringCase(keyOf(xs[i]), keyOf(entry));
          assert !SameIgnoringCase(keyOf(xs[i]), keyOf(xs[j]));
        } else if j == m.value {
          assert !SameIgnoringCase(keyOf(xs[i]), keyOf(xs[j]));
        }
      } else if j == |xs| {
        assert !SameIgnoringCase(keyOf(xs[i]), keyOf(entry));
      }
    }
  }

  /** `findIndex`: the index of the first match, or -1. */
  method FindIndex<T>(xs: seq<T>, keyOf: T -> string, key: string) returns (index: int)
    ensures index == -1 <==> FirstMatch(xs, keyOf, key).None?
    ensures index != -1 ==> index == FirstMatch(xs, keyOf, key).value
  {
    var i := 0;
    while i < |xs|
      invariant 0 <= i <= |xs|
      invariant forall j :: 0 <= j < i ==> !SameIgnoringCase(keyOf(xs[j]), key)
    {
      if Lower(keyOf(xs[i])) == Lower(key) {
        FirstMatchIs(xs, keyOf, key, i);
        return i;
      }
      i := i + 1;
    }
    return -1;
  }

  /** The first match is the first index that matches. */
  lemma {:induction false} FirstMatchIs<T>(xs: seq<T>, keyOf: T -> string, key: string, i: nat)
    requires i < |xs| && SameIgnoringCase(keyOf(xs[i]), key)
    requires forall j :: 0 <= j < i ==> !SameIgnoringCase(keyOf(xs[j]), key)
    ensures FirstMatch(xs, keyOf, key) == Some(i)
  {
    var m := FirstMatch(xs, keyOf, key);
    assert m.Some?;
  }

  /** `savedVendors[existingIndex] = vendor` or `savedVendors.push(vendor)`. */
  method UpsertInPlace<T>(xs: seq<T>, keyOf: T -> string, entry: T) returns (r: seq<T>)
    ensures r == Upsert(xs, keyOf, entry)
  {
    var index := FindIndex(xs, keyOf, keyOf(entry));
    if index != -1 {
      r := xs[index := entry];
    } else {
      r := xs + [entry];
    }
  }

  /** A saved vendor entry, as `saveVendor` builds it. */
  datatype VendorEntry = VendorEntry(name: string, address: string, city: string, state: string,
                                     zip: string, country: string, saveDate: string,
                                     originalDate: string)

  function VendorName(v: VendorEntry): string { v.name }

  /** The vendor inputs' values. */
  datatype VendorForm = VendorForm(name: string, address: string, city: string, state: string,
                                   zip: string, country: string)

  /** The `saveDate` of a vendor: the date input's month, day and the year
      without its first two characters, or today as `MM/DD/YY`. */
  function VendorSaveDate(poDate: DateInput, today: Date): string {
    match poDate
    case OnDate(d) =>
      var year := NatToString(d.year);
      Pad2(d.month) + "/" + Pad2(d.day) + "/" + (if |year| >= 2 then year[2..] else "")
    case NoDate => Pad2(today.month) + "/" + Pad2(today.day) + "/" + Pad2(today.year % 100)
  }

  /** For four-digit years both branches give `MM/DD/YY`. */
  lemma {:induction false} VendorSaveDateShape(poDate: DateInput, today: Date)
    requires ValidInput(poDate) && ValidDate(today)
    requires poDate.OnDate? ==> poDate.date.year < 10000
    ensures var d := if poDate.OnDate? then poDate.date else today;
            VendorSaveDate(poDate, today) == Pad2(d.month) + "/" + Pad2(d.day) + "/" + Pad2(d.year % 100)
  {
    if poDate.OnDate? {
      var y := poDate.date.year;
      YearDigits(y);
      NatToStringLastTwo(y);
      assert NatToString(y)[2..] == LastChars(NatToString(y), 2);
    }
  }

  function IsoOrEmpty(poDate: DateInput): string {
    match poDate
    case OnDate(d) => IsoText(d)
    case NoDate => ""
  }

  /** The entry stored for the form: trimmed fields, country defaulting to
      `USA`. */
  function NewVendorEntry(form: VendorForm, poDate: DateInput, today: Date): VendorEntry {
    VendorEntry(Trim(form.name), Trim(form.address), Trim(form.city), Trim(form.state),
                Trim(form.zip), Or(Trim(form.country), "USA"), VendorSaveDate(poDate, today),
                IsoOrEmpty(poDate))
  }

  /** A saved line-item entry. */
  datatype ItemEntry = ItemEntry(description: string, quantity: string, rate: string, date: string)

  function ItemDescription(e: ItemEntry): string { e.description }

  /** A line-item row of the form: its three inputs' values. */
  datatype Row = Row(quantity: string, description: string, rate: string)

  /** The row's entry, when its trimmed description is not empty. */
  function RowEntry(row: Row, saveDate: string): Option<ItemEntry> {
    var description := Trim(row.description);
    if description != "" then
      Some(ItemEntry(description, Or(Trim(row.quantity), "1"), Or(Trim(row.rate), "0.00"), saveDate))
    else None
  }

  /** The `forEach` over the rows: each row with a description upserted in
      order. */
  function SaveRows(list: seq<ItemEntry>, rows: seq<Row>, saveDate: string): seq<ItemEntry>
    decreases |rows|
  {
    if rows == [] then list
    else
      var before := SaveRows(list, rows[..|rows| - 1], saveDate);
      match RowEntry(rows[|rows| - 1], saveDate)
      case Some(e) => Upsert(before, ItemDescription, e)
      case None => before
  }

  /** One more row of the `forEach`. */
  lemma {:induction false} SaveRowsStep(list: seq<ItemEntry>, rows: seq<Row>, i: nat, saveDate: string)
    requires i < |rows|
    ensures SaveRows(list, rows[..i + 1], saveDate) ==
            match RowEntry(rows[i], saveDate)
            case Some(e) => Upsert(SaveRows(list, rows[..i], saveDate), ItemDescription, e)
            case None => SaveRows(list, rows[..i], saveDate)
    ensures AnyDescribed(rows[..i + 1]) <==> AnyDescribed(rows[..i]) || RowEntry(rows[i], saveDate).Some?
  {
    assert rows[..i + 1][..i] == rows[..i];
    AnyDescribedSnoc(rows[..i], rows[i]);
    assert rows[..i] + [rows[i]] == rows[..i + 1];
  }

  predicate AnyDescribed(rows: seq<Row>) {
    exists i :: 0 <= i < |rows| && Trim(rows[i].description) != ""
  }

  lemma {:induction false} AnyDescribedSnoc(rows: seq<Row>, row: Row)
    ensures AnyDescribed(rows + [row]) <==> AnyDescribed(rows) || Trim(row.description) != ""
  {
    if AnyDescribed(rows + [row]) {
      var i :| 0 <= i < |rows + [row]| && Trim((rows + [row])[i].description) != "";
      if i < |rows| {
        assert (rows + [row])[i] == rows[i];
      }
    }
    if AnyDescribed(rows) {
      var i :| 0 <= i < |rows| && Trim(rows[i].description) != "";
      assert (rows + [row])[i] == rows[i];
    }
    if Trim(row.description) != "" {
      assert (rows + [row])[|rows|] == row;
    }
  }

  /** After saving, every described row has an entry under its trimmed
      description, and the stored keys stay distinct. */
  lemma {:induction false} SaveRowsFindsEach(list: seq<ItemEntry>, rows: seq<Row>, saveDate: string)
    requires DistinctKeys(list, ItemDescription)
    ensures DistinctKeys(SaveRows(list, rows, saveDate), ItemDescription)
    ensures forall j :: 0 <= j < |rows| && Trim(rows[j].description) != "" ==>
              FirstMatch(SaveRows(list, rows, saveDate), ItemDescription,
                         Trim(rows[j].description)).Some?
    decreases |rows|
  {
    if rows != [] {
      var init := rows[..|rows| - 1];
      var before := SaveRows(list, init, saveDate);
      SaveRowsFindsEach(list, init, saveDate);
      var after := SaveRows(list, rows, saveDate);
      match RowEntry(rows[|rows| - 1], saveDate) {
        case Some(e) =>
          UpsertKeepsDistinct(before, ItemDescription, e);
          UpsertFinds(before, ItemDescription, e);
          UpsertKeepsKeys(before, e, init);
          forall j | 0 <= j < |rows| && Trim(rows[j].description) != ""
            ensures FirstMatch(after, ItemDescription, Trim(rows[j].description)).Some?
          {
            if j < |rows| - 1 {
              assert rows[j] == init[j];
            }
          }
        case None =>
          forall j | 0 <= j < |rows| && Trim(rows[j].description) != ""
            ensures FirstMatch(after, ItemDescription, Trim(rows[j].description)).Some?
          {
            assert rows[j] == init[j];
          }
      }
    }
  }

  /** The keys of earlier rows survive an upsert. */
  lemma {:induction false} UpsertKeepsKeys(xs: seq<ItemEntry>, entry: ItemEntry, rows: seq<Row>)
    requires forall j :: 0 <= j < |rows| && Trim(rows[j].description) != "" ==>
               FirstMatch(xs, ItemDescription, Trim(rows[j].description)).Some?
    ensures forall j :: 0 <= j < |rows| && Trim(rows[j].description) != "" ==>
              FirstMatch(Upsert(xs, ItemDescription, entry), ItemDescription,
                         Trim(rows[j].description)).Some?
  {
    forall j | 0 <= j < |rows| && Trim(rows[j].description) != ""
      ensures FirstMatch(Upsert(xs, ItemDescription, entry), ItemDescription,
                         Trim(rows[j].description)).Some?
    {
      UpsertKeepsKey(xs, entry, Trim(rows[j].description));
    }
  }

  /** A key present before an upsert is present after it. */
  lemma {:induction false} UpsertKeepsKey(xs: seq<ItemEntry>, entry: ItemEntry, key: string)
    requires FirstMatch(xs, ItemDescription, key).Some?
    ensures FirstMatch(Upsert(xs, ItemDescription, entry), ItemDescription, key).Some?
  {
    var k := FirstMatch(xs, ItemDescription, key).value;
    var r := Upsert(xs, ItemDescription, entry);
    var m := FirstMatch(xs, ItemDescription, ItemDescription(entry));
    UpsertEffect(xs, ItemDescription, entry);
    if m == Some(k) {
      assert SameIgnoringCase(ItemDescription(r[k]), key);
    } else {
      assert r[k] == xs[k];
    }
  }

  /** The outcome of a save: stored, or the alert shown instead. */
  datatype SaveOutcome = Saved | Alert(message: string)

  const VendorNameAlert: string := "Please enter a vendor name"
  const NoRowsAlert: string := "Please add at least one line item"
  const NoDescriptionAlert: string := "Please enter at least one line item description"

  /** The page: the two stored lists and the form's line-item rows. */
  class Page {
    var savedVendors: Stored<VendorEntry>
    var savedLineItems: Stored<ItemEntry>
    var rows: seq<Row>

    constructor (vendors: Stored<VendorEntry>, items: Stored<ItemEntry>, initialRows: seq<Row>)
      ensures savedVendors == vendors && savedLineItems == items && rows == initialRows
    {
      savedVendors := vendors;
      savedLineItems := items;
      rows := initialRows;
    }

    /** `saveVendor`: a blank name is refused and nothing is stored;
        otherwise the vendor replaces the entry of the same name, ignoring
        case, or is appended, and an unreadable list starts over empty. */
    method SaveVendor(form: VendorForm, poDate: DateInput, today: Date) returns (outcome: SaveOutcome)
      modifies this
      ensures Trim(form.name) == "" ==>
                outcome == Alert(VendorNameAlert) && savedVendors == old(savedVendors)
      ensures Trim(form.name) != "" ==>
                outcome == Saved &&
                savedVendors == Items(Upsert(ListOf(old(savedVendors)), VendorName,
                                             NewVendorEntry(form, poDate, today)))
      ensures savedLineItems == old(savedLineItems) && rows == old(rows)
    {
      var name := Trim(form.name);
      if name == "" {
        return Alert(VendorNameAlert);
      }
      var vendor := NewVendorEntry(form, poDate, today);
      var list := ListOf(savedVendors);
      list := UpsertInPlace(list, VendorName, vendor);
      savedVendors := Items(list);
      return Saved;
    }

    /** `saveLineItems`: with no rows, or no row with a description, an
        alert and nothing stored; otherwise each described row upserted in
        row order. */
    method SaveLineItems(today: Date) returns (outcome: SaveOutcome)
      modifies this
      ensures rows == [] ==> outcome == Alert(NoRowsAlert)
      ensures rows != [] && !AnyDescribed(rows) ==> outcome == Alert(NoDescriptionAlert)
      ensures outcome.Alert? ==> savedLineItems == old(savedLineItems)
      ensures outcome == Saved <==> AnyDescribed(rows)
      ensures outcome == Saved ==>
                savedLineItems == Items(SaveRows(ListOf(old(savedLineItems)), rows, SlashDate(today)))
      ensures savedVendors == old(savedVendors) && rows == old(rows)
    {
      if |rows| == 0 {
        return Alert(NoRowsAlert);
      }
      var saveDate := SlashDate(today);
      var rs, start := rows, ListOf(savedLineItems);
      var list := start;
      var itemsSaved := false;
      var i := 0;
      while i < |rs|
        invariant 0 <= i <= |rs|
        invariant list == SaveRows(start, rs[..i], saveDate)
        invariant itemsSaved == AnyDescribed(rs[..i])
        invariant unchanged(this)
      {
        SaveRowsStep(start, rs, i, saveDate);
        var entry := RowEntry(rs[i], saveDate);
        if entry.Some? {
          itemsSaved := true;
          list := UpsertInPlace(list, ItemDescription, entry.value);
        }
        i := i + 1;
      }
      assert rs[..i] == rs;
      if !itemsSaved {
        return Alert(NoDescriptionAlert);
      }
      savedLineItems := Items(list);
      return Saved;
    }

    /** `loadLineItems`: dropdown position `selectedIndex` (0 is the
        placeholder). */
    method LoadLineItems(selectedIndex: int)
      modifies this
      ensures rows == LoadedRows(old(rows), savedLineItems, selectedIndex)
      ensures savedVendors == old(savedVendors) && savedLineItems == old(savedLineItems)
    {
      if selectedIndex <= 0 || savedLineItems.Unreadable? {
        return;
      }
      var list := ListOf(savedLineItems);
      if selectedIndex - 1 >= |list| {
        return;
      }
      var item := list[selectedIndex - 1];
      var loaded := Row(item.quantity, item.description, item.rate);
      if |rows| > 0 {
        var existing := rows;
        rows := [loaded] + existing[1..];
        var i := 1;
        while i < |existing|
          invariant 1 <= i <= |existing|
          invariant rows == [loaded] + existing[i..]
          invariant savedVendors == old(savedVendors) && savedLineItems == old(savedLineItems)
        {
          rows := [rows[0]] + rows[2..];
          i := i + 1;
        }
        assert existing[|existing|..] == [];
      } else {
        rows := [loaded];
      }
    }
  }

  /** The rows after choosing dropdown position `selectedIndex`. */
  function LoadedRows(rows: seq<Row>, saved: Stored<ItemEntry>, selectedIndex: int): seq<Row> {
    if selectedIndex <= 0 || saved.Unreadable? || selectedIndex - 1 >= |ListOf(saved)| then rows
    else
      var item := ListOf(saved)[selectedIndex - 1];
      [Row(item.quantity, item.description, item.rate)]
  }

  /** Position 0, an unreadable list or a position past the end changes
      nothing; any other position leaves exactly one row, holding entry
      `selectedIndex - 1`. */
  lemma {:induction false} LoadedRowsEffect(rows: seq<Row>, saved: Stored<ItemEntry>, selectedIndex: int)
    ensures selectedIndex <= 0 ==> LoadedRows(rows, saved, selectedIndex) == rows
    ensures saved.Items? && 0 < selectedIndex <= |saved.items| ==>
              var r := LoadedRows(rows, saved, selectedIndex);
              var e := saved.items[selectedIndex - 1];
              |r| == 1 && r[0].description == e.description && r[0].quantity == e.quantity &&
              r[0].rate == e.rate
  {
  }
}
