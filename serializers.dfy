/** The purchase-order serializer: its `validate` hook, and `create` and
    `update` on the validated data. Field-level parsing (primary keys,
    decimals, dates, the stamp choice) happens before these and is not part
    of this model: the validated data arrives as one assignment per
    writable field the request carried, in the order the serializer lists
    them, and the optional list of line-item ids. */
module Serializers {
  import opened Common
  import opened Dates
  import opened Models

  /** `validated_data`: the writable fields given, and `line_items` when the
      request had it. A dictionary has each field at most once. */
  datatype ValidatedData = ValidatedData(assigns: seq<Assignment>, lineItems: Option<seq<nat>>)

  /** An error keyed by field name, as DRF reports it. */
  datatype FieldError = FieldError(field: string, message: string)

  const LineItemsRequired: string := "At least one line item is required."

  /** `PurchaseOrderSerializer.validate`. `isUpdate` is `self.instance`
      being set. An update that does not mention `line_items` passes as it
      is; otherwise an empty list is refused. */
  function Validate(isUpdate: bool, data: ValidatedData): (r: Result<ValidatedData, FieldError>)
    ensures r.Ok? ==> r.value == data
    ensures r.Err? ==> r.error == FieldError("line_items", LineItemsRequired)
    ensures r.Err? <==> (!isUpdate || data.lineItems.Some?) &&
                        (data.lineItems.None? || data.lineItems.value == [])
  {
    if isUpdate && data.lineItems.None? then Ok(data)
    else
      var items := if data.lineItems.Some? then data.lineItems.value else [];
      if items == [] then Err(FieldError("line_items", LineItemsRequired)) else Ok(data)
  }

  /** Data that passes validation on create carries at least one item. */
  lemma {:induction false} ValidCreateHasItems(data: ValidatedData)
    requires Validate(false, data).Ok?
    ensures data.lineItems.Some? && |data.lineItems.value| >= 1
  {
  }

  // ---------------------------------------------------------------------
  // Fields, and the `setattr` loop

  /** The writable fields of the record. */
  datatype Field = VendorField | DateField | TermsField | DaysField | NotesField | StampField
                 | SignatureField

  /** The field an assignment writes. */
  function FieldOf(a: Assignment): Field {
    match a
    case SetVendor(_) => VendorField
    case SetDate(_) => DateField
    case SetPaymentTerms(_) => TermsField
    case SetPaymentDays(_) => DaysField
    case SetNotes(_) => NotesField
    case SetApprovalStamp(_) => StampField
    case SetSignature(_) => SignatureField
  }

  /** Two records agree on field `f`. */
  predicate SameField(s: PoState, t: PoState, f: Field) {
    match f
    case VendorField => s.vendor == t.vendor
    case DateField => s.date == t.date
    case TermsField => s.paymentTerms == t.paymentTerms
    case DaysField => s.paymentDays == t.paymentDays
    case NotesField => s.notes == t.notes
    case StampField => s.approvalStamp == t.approvalStamp
    case SignatureField => s.signature == t.signature
  }

  /** Each field at most once, as in a dictionary. */
  predicate DistinctFields(assigns: seq<Assignment>) {
    forall i, j :: 0 <= i < j < |assigns| ==> FieldOf(assigns[i]) != FieldOf(assigns[j])
  }

  /** `for attr, value in validated_data.items(): setattr(instance, attr, value)`. */
  function ApplyAll(s: PoState, assigns: seq<Assignment>): PoState
    decreases |assigns|
  {
    if assigns == [] then s
    else Assign(ApplyAll(s, assigns[..|assigns| - 1]), assigns[|assigns| - 1])
  }

  /** One assignment touches its own field and no other. */
  lemma {:induction false} AssignFields(s: PoState, a: Assignment)
    ensures var t := Assign(s, a);
            t.poNumber == s.poNumber && t.user == s.user && t.lineItems == s.lineItems
    ensures forall f :: f != FieldOf(a) ==> SameField(s, Assign(s, a), f)
  {
  }

  lemma {:induction false} SameFieldTransitive(s: PoState, t: PoState, u: PoState, f: Field)
    requires SameField(s, t, f) && SameField(t, u, f)
    ensures SameField(s, u, f)
  {
  }

  /** The loop never touches the number, the owner or the line items, nor a
      field no assignment names. */
  lemma {:induction false} ApplyAllKeeps(s: PoState, assigns: seq<Assignment>)
    ensures var t := ApplyAll(s, assigns);
            t.poNumber == s.poNumber && t.user == s.user && t.lineItems == s.lineItems
    ensures forall f :: (forall i :: 0 <= i < |assigns| ==> FieldOf(assigns[i]) != f) ==>
                        SameField(s, ApplyAll(s, assigns), f)
    decreases |assigns|
  {
    if assigns != [] {
      var init, last := assigns[..|assigns| - 1], assigns[|assigns| - 1];
      ApplyAllKeeps(s, init);
      AssignFields(ApplyAll(s, init), last);
      forall f | forall i :: 0 <= i < |assigns| ==> FieldOf(assigns[i]) != f
        ensures SameField(s, ApplyAll(s, assigns), f)
      {
        assert forall i :: 0 <= i < |init| ==> FieldOf(init[i]) != f by {
          forall i | 0 <= i < |init| ensures FieldOf(init[i]) != f {
            assert init[i] == assigns[i];
          }
        }
        assert FieldOf(last) != f;
        assert ApplyAll(s, assigns) == Assign(ApplyAll(s, init), last);
        SameFieldTransitive(s, ApplyAll(s, init), ApplyAll(s, assigns), f);
      }
    }
  }

  /** A field named once ends up with that assignment's value. */
  lemma {:induction false} ApplyAllSets(s: PoState, assigns: seq<Assignment>, k: nat)
    requires k < |assigns|
    requires forall i :: 0 <= i < |assigns| && i != k ==> FieldOf(assigns[i]) != FieldOf(assigns[k])
    ensures SameField(ApplyAll(s, assigns), Assign(s, assigns[k]), FieldOf(assigns[k]))
    decreases |assigns|
  {
    var init, last := assigns[..|assigns| - 1], assigns[|assigns| - 1];
    var f := FieldOf(assigns[k]);
    AssignFields(ApplyAll(s, init), last);
    if k == |assigns| - 1 {
      assert forall i :: 0 <= i < |init| ==> FieldOf(init[i]) != f by {
        forall i | 0 <= i < |init| ensures FieldOf(init[i]) != f {
          assert init[i] == assigns[i];
        }
      }
    } else {
      assert init[k] == assigns[k];
      forall i | 0 <= i < |init| && i != k ensures FieldOf(init[i]) != FieldOf(init[k]) {
        assert init[i] == assigns[i];
      }
      ApplyAllSets(s, init, k);
      assert FieldOf(last) != f;
    }
  }

  /** With each field at most once, every field either takes the value of
      the one assignment naming it or keeps its value. */
  lemma {:induction false} ApplyAllExact(s: PoState, assigns: seq<Assignment>, f: Field)
    requires DistinctFields(assigns)
    ensures (exists k :: 0 <= k < |assigns| && FieldOf(assigns[k]) == f &&
                         SameField(ApplyAll(s, assigns), Assign(s, assigns[k]), f))
         || SameField(ApplyAll(s, assigns), s, f)
  {
    ApplyAllKeeps(s, assigns);
    if k :| 0 <= k < |assigns| && FieldOf(assigns[k]) == f {
      forall i | 0 <= i < |assigns| && i != k ensures FieldOf(assigns[i]) != FieldOf(assigns[k]) {
        if i < k { assert FieldOf(assigns[i]) != FieldOf(assigns[k]); }
        else { assert FieldOf(assigns[k]) != FieldOf(assigns[i]); }
      }
      ApplyAllSets(s, assigns, k);
    } else {
      assert SameField(s, ApplyAll(s, assigns), f);
    }
  }

  /** `line_items.set(ids)` keeps each id once. */
  function IdSet(ids: seq<nat>): (r: set<nat>)
    ensures forall x :: x in r <==> x in ids
  {
    set x | x in ids
  }

  // ---------------------------------------------------------------------
  // update and create

  /** The record after `update`: the assignments, then `save`, then the
      line items replaced when the data carried them. */
  function UpdatedState(s: PoState, data: ValidatedData, numberDay: Date,
                        todaysNumbers: seq<string>, today: Date): PoState {
    var t := SavedState(ApplyAll(s, data.assigns), numberDay, todaysNumbers, today);
    if data.lineItems.Some? then t.(lineItems := IdSet(data.lineItems.value)) else t
  }

  /** What `update` promises: the line items change only when given, the
      owner never, the number only when there was none; fields not named
      keep their value, except the date, which `save` resets. */
  lemma {:induction false} UpdateEffect(s: PoState, data: ValidatedData, numberDay: Date,
                     todaysNumbers: seq<string>, today: Date)
    ensures var t := UpdatedState(s, data, numberDay, todaysNumbers, today);
            (data.lineItems.None? ==> t.lineItems == s.lineItems) &&
            (data.lineItems.Some? ==> t.lineItems == IdSet(data.lineItems.value)) &&
            t.user == s.user &&
            (s.poNumber != "" ==> t.poNumber == s.poNumber) &&
            t.date == today
    ensures forall f :: f != DateField &&
                        (forall i :: 0 <= i < |data.assigns| ==> FieldOf(data.assigns[i]) != f) ==>
                        SameField(s, UpdatedState(s, data, numberDay, todaysNumbers, today), f)
  {
    ApplyAllKeeps(s, data.assigns);
    var a := ApplyAll(s, data.assigns);
    forall f | f != DateField &&
               (forall i :: 0 <= i < |data.assigns| ==> FieldOf(data.assigns[i]) != f)
      ensures SameField(s, UpdatedState(s, data, numberDay, todaysNumbers, today), f)
    {
      assert SameField(s, a, f);
      assert SameField(a, UpdatedState(s, data, numberDay, todaysNumbers, today), f);
      SameFieldTransitive(s, a, UpdatedState(s, data, numberDay, todaysNumbers, today), f);
    }
  }

  /** A named field other than the date takes the value assigned. */
  lemma {:induction false} UpdateSetsField(s: PoState, data: ValidatedData, numberDay: Date,
                        todaysNumbers: seq<string>, today: Date, k: nat)
    requires DistinctFields(data.assigns) && k < |data.assigns|
    requires FieldOf(data.assigns[k]) != DateField
    ensures SameField(UpdatedState(s, data, numberDay, todaysNumbers, today),
                      Assign(s, data.assigns[k]), FieldOf(data.assigns[k]))
  {
    var assigns := data.assigns;
    forall i | 0 <= i < |assigns| && i != k ensures FieldOf(assigns[i]) != FieldOf(assigns[k]) {
      if i < k { assert FieldOf(assigns[i]) != FieldOf(assigns[k]); }
      else { assert FieldOf(assigns[k]) != FieldOf(assigns[i]); }
    }
    ApplyAllSets(s, assigns, k);
  }

  /** `PurchaseOrderSerializer.update`. `numberDay`, `todaysNumbers` and
      `today` are what `save` reads from the clock and the database. */
  method Update(po: PurchaseOrder, data: ValidatedData, numberDay: Date,
                todaysNumbers: seq<string>, today: Date)
    modifies po
    ensures po.State() == UpdatedState(old(po.State()), data, numberDay, todaysNumbers, today)
  {
    ghost var s0 := po.State();
    var i := 0;
    while i < |data.assigns|
      invariant 0 <= i <= |data.assigns|
      invariant po.State() == ApplyAll(s0, data.assigns[..i])
    {
      assert data.assigns[..i + 1][..i] == data.assigns[..i];
      po.SetAttr(data.assigns[i]);
      i := i + 1;
    }
    assert data.assigns[..i] == data.assigns;
    po.Save(numberDay, todaysNumbers, today);
    if data.lineItems.Some? {
      po.SetLineItems(IdSet(data.lineItems.value));
    }
  }

  /** The record `create` stores: a new order of `requestUser`, the
      assignments, `save`, and the line items when the list is not empty. */
  function CreatedState(requestUser: nat, data: ValidatedData, numberDay: Date,
                        todaysNumbers: seq<string>, today: Date): PoState {
    var t := SavedState(ApplyAll(NewState(requestUser, today), data.assigns),
                        numberDay, todaysNumbers, today);
    if data.lineItems.Some? && data.lineItems.value != [] then
      t.(lineItems := IdSet(data.lineItems.value))
    else t
  }

  /** A created order belongs to the requesting user whatever the data says,
      has a freshly assigned number and today's date, and, when the data was
      valid, exactly the requested line items, none of them missing. */
  lemma {:induction false} CreateEffect(requestUser: nat, data: ValidatedData, numberDay: Date,
                     todaysNumbers: seq<string>, today: Date)
    ensures var t := CreatedState(requestUser, data, numberDay, todaysNumbers, today);
            t.user == requestUser &&
            t.poNumber == NewPoNumber(numberDay, todaysNumbers) &&
            t.date == today
    ensures Validate(false, data).Ok? ==>
            var t := CreatedState(requestUser, data, numberDay, todaysNumbers, today);
            t.lineItems == IdSet(data.lineItems.value) && t.lineItems != {}
  {
    ApplyAllKeeps(NewState(requestUser, today), data.assigns);
    if Validate(false, data).Ok? {
      assert data.lineItems.value[0] in IdSet(data.lineItems.value);
    }
  }

  /** `PurchaseOrderSerializer.create`. */
  method Create(requestUser: nat, data: ValidatedData, numberDay: Date,
                todaysNumbers: seq<string>, today: Date) returns (po: PurchaseOrder)
    ensures fresh(po)
    ensures po.State() == CreatedState(requestUser, data, numberDay, todaysNumbers, today)
  {
    po := new PurchaseOrder(requestUser, today);
    ghost var s0 := po.State();
    var i := 0;
    while i < |data.assigns|
      invariant 0 <= i <= |data.assigns|
      invariant po.State() == ApplyAll(s0, data.assigns[..i])
    {
      assert data.assigns[..i + 1][..i] == data.assigns[..i];
      po.SetAttr(data.assigns[i]);
      i := i + 1;
    }
    assert data.assigns[..i] == data.assigns;
    po.Save(numberDay, todaysNumbers, today);
    if data.lineItems.Some? && data.lineItems.value != [] {
      po.SetLineItems(IdSet(data.lineItems.value));
    }
  }

  // ---------------------------------------------------------------------
  // Saved templates

  /** `SavedVendorSerializer.create`: the template's owner is the requesting
      user. */
  function CreateSavedVendor(requestUser: nat, vendor: nat, name: string): (r: SavedVendor)
    ensures r.user == requestUser && r.vendor == vendor && r.name == name
  {
    SavedVendor(requestUser, vendor, name)
  }

  /** `SavedLineItemSerializer.create`. */
  function CreateSavedLineItem(requestUser: nat, lineItem: nat, name: string): (r: SavedLineItem)
    ensures r.user == requestUser && r.lineItem == lineItem && r.name == name
  {
    SavedLineItem(requestUser, lineItem, name)
  }
}
