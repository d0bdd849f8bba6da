/** The Django models: field choices and defaults, saved templates, and the
    purchase order, whose `save` gives it a number once (the day's date and
    a per-day counter) and stamps it with today's date on every save.
    The database query that finds the day's existing numbers is an input:
    the numbers of the orders created on that day, in any order. */
module Models {
  import opened Common
  import opened Dates

  datatype ApprovalStamp = Original | Cit | NoStamp

  /** The stored value of each choice. */
  function StampValue(s: ApprovalStamp): string {
    match s
    case Original => "original"
    case Cit => "cit"
    case NoStamp => "none"
  }

  /** The choice field's validation: one of the three stored values. */
  function ParseStamp(v: string): Option<ApprovalStamp> {
    if v == "original" then Some(Original)
    else if v == "cit" then Some(Cit)
    else if v == "none" then Some(NoStamp)
    else None
  }

  /** The choice field accepts exactly the three stored values. */
  lemma {:induction false} ParseStampExact(v: string, s: ApprovalStamp)
    ensures ParseStamp(StampValue(s)) == Some(s)
    ensures ParseStamp(v) == Some(s) <==> v == StampValue(s)
  {
  }

  const DefaultStamp: ApprovalStamp := NoStamp
  const DefaultPaymentDays: nat := 30

  datatype Vendor = Vendor(name: string, address: string, city: string, state: string,
                           zipCode: string, country: string)

  /** A saved vendor template and a saved line-item template, each owned by
      a user. */
  datatype SavedVendor = SavedVendor(user: nat, vendor: nat, name: string)
  datatype SavedLineItem = SavedLineItem(user: nat, lineItem: nat, name: string)

  // ---------------------------------------------------------------------
  // Purchase-order numbering

  /** `int(po_number.split('-')[-1])`, or nothing when that text is not a
      number. */
  function SuffixNumber(poNumber: string): Option<nat> {
    var t := AfterLast(poNumber, '-');
    if t != [] && AllDigits(t) then Some(DigitsValue(t)) else None
  }

  /** A number this model issues reads back to its counter. */
  lemma {:induction false} SuffixNumberOfPoNumber(part: string, n: nat)
    ensures SuffixNumber(PoNumber(part, NatToString(n))) == Some(n)
  {
    NatToStringShape(n);
    NatToStringRoundTrip(n);
    var t := NatToString(n);
    assert '-' !in t;
    assert PoNumber(part, t) == ("CIT" + part) + ['-'] + t;
    AfterLastOfJoin("CIT" + part, '-', t);
  }

  /** The greatest string, as `order_by('-po_number').first()` picks it. */
  function StrMax(s: seq<string>): string
    requires s != []
  {
    if |s| == 1 then s[0]
    else
      var m := StrMax(s[..|s| - 1]);
      if StrLess(m, s[|s| - 1]) then s[|s| - 1] else m
  }

  lemma {:induction false} StrMaxIsMax(s: seq<string>)
    requires s != []
    ensures StrMax(s) in s
    ensures forall x :: x in s ==> !StrLess(StrMax(s), x)
  {
    if |s| == 1 {
      StrLessIrreflexive(s[0]);
    } else {
      var init, last := s[..|s| - 1], s[|s| - 1];
      StrMaxIsMax(init);
      var m := StrMax(init);
      assert s == init + [last];
      if StrLess(m, last) {
        forall x | x in s ensures !StrLess(last, x) {
          if x in init && StrLess(last, x) {
            StrLessTransitive(m, last, x);
          }
          if x == last { StrLessIrreflexive(last); }
        }
      } else {
        forall x | x in s ensures !StrLess(m, x) {
          if x == last {
            StrLessTrichotomy(m, last);
            if m != last { assert StrLess(last, m); StrLessAsymmetric(last, m); }
            else { StrLessIrreflexive(m); }
          }
        }
      }
    }
  }

  /** The new day counter as `save` computes it: one more than the number
      after the last `-` of the string-greatest number of the day, or 1 when
      there is none or it is not a number. */
  function NextSuffix(todaysNumbers: seq<string>): (n: nat)
    ensures n >= 1
  {
    if todaysNumbers == [] then 1
    else match SuffixNumber(StrMax(todaysNumbers))
      case Some(last) => last + 1
      case None => 1
  }

  /** The counter is determined by any greatest number of the day, whatever
      order the query returns the rows in: one more than its suffix when
      that is a number, otherwise 1. */
  lemma {:induction false} NextSuffixOfGreatest(todaysNumbers: seq<string>, m: string)
    requires m in todaysNumbers
    requires forall x :: x in todaysNumbers ==> !StrLess(m, x)
    ensures NextSuffix(todaysNumbers) == match SuffixNumber(m) case Some(k) => k + 1 case None => 1
  {
    StrMaxIsMax(todaysNumbers);
    var g := StrMax(todaysNumbers);
    StrLessTrichotomy(m, g);
    assert !StrLess(g, m) && !StrLess(m, g);
    assert m == g;
  }

  /** `CIT{today:%m%d%y}-{n}`. */
  function NewPoNumber(numberDay: Date, todaysNumbers: seq<string>): string {
    PoNumber(PyDatePart(numberDay), NatToString(NextSuffix(todaysNumbers)))
  }

  lemma {:induction false} SmallNumbers()
    ensures NatToString(9) == "9" && NatToString(10) == "10"
  {
  }

  /** `-10` sorts below `-9` among the numbers of one day. */
  lemma {:induction false} StrMaxOfTenAndNine(part: string)
    ensures StrMax([PoNumber(part, "10"), PoNumber(part, "9")]) == PoNumber(part, "9")
  {
    var prefix := "CIT" + part + "-";
    assert PoNumber(part, "10") == prefix + "10";
    assert PoNumber(part, "9") == prefix + "9";
    StrLessCommonPrefix(prefix, "10", "9");
    var todays := [PoNumber(part, "10"), PoNumber(part, "9")];
    assert todays[..1] == [PoNumber(part, "10")];
  }

  /** String order puts `-9` above `-10`: on any day that already has the
      numbers `-10` and `-9`, the next order is given `-10` again, which
      `unique=True` rejects. */
  lemma {:induction false} StringOrderRepeatsNumber(numberDay: Date)
    ensures var part := PyDatePart(numberDay);
            var todays := [PoNumber(part, "10"), PoNumber(part, "9")];
            StrMax(todays) == PoNumber(part, "9") &&
            NewPoNumber(numberDay, todays) == PoNumber(part, "10") &&
            NewPoNumber(numberDay, todays) in todays
  {
    var part := PyDatePart(numberDay);
    SmallNumbers();
    StrMaxOfTenAndNine(part);
    SuffixNumberOfPoNumber(part, 9);
  }

  lemma {:induction false} StrLessCommonPrefix(p: string, a: string, b: string)
    ensures StrLess(p + a, p + b) == StrLess(a, b)
    decreases |p|
  {
    if p != [] {
      assert (p + a)[1..] == p[1..] + a && (p + b)[1..] == p[1..] + b;
      StrLessCommonPrefix(p[1..], a, b);
    } else {
      assert p + a == a && p + b == b;
    }
  }

  /** The intended counter: one more than the greatest numeric suffix among
      the day's numbers. */
  function NextSuffixNumeric(todaysNumbers: seq<string>): nat {
    if todaysNumbers == [] then 1
    else
      var rest := NextSuffixNumeric(todaysNumbers[..|todaysNumbers| - 1]);
      match SuffixNumber(todaysNumbers[|todaysNumbers| - 1])
      case Some(n) => if n + 1 > rest then n + 1 else rest
      case None => rest
  }

  lemma {:induction false} NextSuffixNumericAbove(todaysNumbers: seq<string>)
    ensures NextSuffixNumeric(todaysNumbers) >= 1
    ensures forall i :: 0 <= i < |todaysNumbers| && SuffixNumber(todaysNumbers[i]).Some? ==>
              SuffixNumber(todaysNumbers[i]).value < NextSuffixNumeric(todaysNumbers)
    decreases |todaysNumbers|
  {
    if todaysNumbers != [] {
      var init := todaysNumbers[..|todaysNumbers| - 1];
      NextSuffixNumericAbove(init);
      forall i | 0 <= i < |todaysNumbers| - 1
        ensures todaysNumbers[i] == init[i] {}
    }
  }

  /** With the numeric counter a new number never repeats one of the day's. */
  lemma {:induction false} NumericSuffixIsFresh(numberDay: Date, todaysNumbers: seq<string>)
    ensures PoNumber(PyDatePart(numberDay), NatToString(NextSuffixNumeric(todaysNumbers)))
            !in todaysNumbers
  {
    var n := NextSuffixNumeric(todaysNumbers);
    var p := PoNumber(PyDatePart(numberDay), NatToString(n));
    NextSuffixNumericAbove(todaysNumbers);
    SuffixNumberOfPoNumber(PyDatePart(numberDay), n);
  }

  // ---------------------------------------------------------------------
  // The purchase-order record

  /** Every field of a purchase order; the line items are a many-to-many
      relation, hence a set. */
  datatype PoState = PoState(
    poNumber: string,
    user: nat,
    vendor: Option<nat>,
    date: Date,
    paymentTerms: string,
    paymentDays: nat,
    lineItems: set<nat>,
    notes: string,
    approvalStamp: ApprovalStamp,
    signature: Option<string>)

  /** A purchase order as constructed for `owner` before any field is given:
      no number yet, the declared defaults, `date` defaulting to the day. */
  function NewState(owner: nat, today: Date): (s: PoState)
    ensures s.poNumber == "" && s.user == owner && s.lineItems == {}
    ensures s.paymentDays == 30 && s.approvalStamp == NoStamp
    ensures StampValue(s.approvalStamp) == "none"
  {
    PoState("", owner, None, today, "", DefaultPaymentDays, {}, "", DefaultStamp, None)
  }

  /** The record after `save`: a number is given only when there is none,
      and the date is always set to `today`. */
  function SavedState(s: PoState, numberDay: Date, todaysNumbers: seq<string>, today: Date): PoState {
    s.(poNumber := if s.poNumber == "" then NewPoNumber(numberDay, todaysNumbers) else s.poNumber,
       date := today)
  }

  /** A value for one writable field, as the serializer's validated data
      carries it. `po_number`, `user` and the timestamps are read-only and
      have no assignment. */
  datatype Assignment =
    | SetVendor(vendor: nat)
    | SetDate(date: Date)
    | SetPaymentTerms(terms: string)
    | SetPaymentDays(days: nat)
    | SetNotes(notes: string)
    | SetApprovalStamp(stamp: ApprovalStamp)
    | SetSignature(file: Option<string>)

  /** `setattr(instance, attr, value)` for one assignment. */
  function Assign(s: PoState, a: Assignment): PoState {
    match a
    case SetVendor(v) => s.(vendor := Some(v))
    case SetDate(d) => s.(date := d)
    case SetPaymentTerms(t) => s.(paymentTerms := t)
    case SetPaymentDays(n) => s.(paymentDays := n)
    case SetNotes(t) => s.(notes := t)
    case SetApprovalStamp(st) => s.(approvalStamp := st)
    case SetSignature(f) => s.(signature := f)
  }

  class PurchaseOrder {
    var poNumber: string
    var user: nat
    var vendor: Option<nat>
    var date: Date
    var paymentTerms: string
    var paymentDays: nat
    var lineItems: set<nat>
    var notes: string
    var approvalStamp: ApprovalStamp
    var signature: Option<string>

    function State(): PoState
      reads this
    {
      PoState(poNumber, user, vendor, date, paymentTerms, paymentDays, lineItems, notes,
              approvalStamp, signature)
    }

    /** `PurchaseOrder(user=...)` before any other field is given: the
        declared defaults, no number yet, `date` defaulting to the day. */
    constructor (owner: nat, today: Date)
      ensures State() == NewState(owner, today)
    {
      poNumber := "";
      user := owner;
      vendor := None;
      date := today;
      paymentTerms := "";
      paymentDays := DefaultPaymentDays;
      lineItems := {};
      notes := "";
      approvalStamp := DefaultStamp;
      signature := None;
    }

    method SetAttr(a: Assignment)
      modifies this
      ensures State() == Assign(old(State()), a)
    {
      match a
      case SetVendor(v) => vendor := Some(v);
      case SetDate(d) => date := d;
      case SetPaymentTerms(t) => paymentTerms := t;
      case SetPaymentDays(n) => paymentDays := n;
      case SetNotes(t) => notes := t;
      case SetApprovalStamp(st) => approvalStamp := st;
      case SetSignature(f) => signature := f;
    }

    /** `line_items.set(ids)`. */
    method SetLineItems(ids: set<nat>)
      modifies this
      ensures State() == old(State()).(lineItems := ids)
    {
      lineItems := ids;
    }

    /** `PurchaseOrder.save`: an order without a number gets
        `CIT{numberDay:%m%d%y}-{NextSuffix}`; an order with one keeps it;
        every save sets `date` to `today`. `numberDay` and `today` are two
        separate reads of the clock. */
    method Save(numberDay: Date, todaysNumbers: seq<string>, today: Date)
      modifies this
      ensures old(poNumber) != "" ==> poNumber == old(poNumber)
      ensures old(poNumber) == "" ==> poNumber == NewPoNumber(numberDay, todaysNumbers)
      ensures State() == SavedState(old(State()), numberDay, todaysNumbers, today)
    {
      if poNumber == "" {
        poNumber := NewPoNumber(numberDay, todaysNumbers);
      }
      date := today;
    }
  }

  /** An assigned number is never empty, so a second save keeps it. */
  lemma {:induction false} NewPoNumberNonEmpty(numberDay: Date, todaysNumbers: seq<string>)
    ensures NewPoNumber(numberDay, todaysNumbers) != ""
    ensures NewPoNumber(numberDay, todaysNumbers)[..3] == "CIT"
  {
  }

  /** `save` gives a number to an order without one, keeps the number of
      an order that has one, sets the date to `today` whatever it was, and
      changes nothing else. */
  lemma {:induction false} SaveEffect(s: PoState, numberDay: Date, todaysNumbers: seq<string>, today: Date)
    ensures var t := SavedState(s, numberDay, todaysNumbers, today);
            t.poNumber != "" &&
            (s.poNumber != "" ==> t.poNumber == s.poNumber) &&
            (s.poNumber == "" ==> t.poNumber == NewPoNumber(numberDay, todaysNumbers)) &&
            t.date == today &&
            t.(poNumber := s.poNumber, date := s.date) == s
  {
    NewPoNumberNonEmpty(numberDay, todaysNumbers);
  }

  /** Saving again, on any later day and with any other numbers present,
      never renumbers an order. */
  lemma {:induction false} SaveTwiceKeepsNumber(s: PoState, day1: Date, todays1: seq<string>, today1: Date,
                             day2: Date, todays2: seq<string>, today2: Date)
    ensures var t := SavedState(s, day1, todays1, today1);
            SavedState(t, day2, todays2, today2).poNumber == t.poNumber
  {
    SaveEffect(s, day1, todays1, today1);
  }
}
