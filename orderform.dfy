/** The React page that creates or edits a purchase order: the form's
    validation schema, the saved line-item picker, the checks made before
    submitting, the multipart form it sends (in particular the merged
    `line_item_ids`), the signer's name and the summary's payment text.
    Numeric inputs hold what Formik holds: nothing, or a number together
    with the text `String(number)` gives for it. */
module OrderForm {
  import opened Common
  import opened Dates
  import opened Json
  import Models
  import Views

  // ---------------------------------------------------------------------
  // Form values

  /** A numeric input: empty, or a number and its printed form. */
  datatype NumField = Blank | Num(shown: string, value: real)

  /** JavaScript truthiness of the input's value. */
  predicate NumTruthy(n: NumField) {
    n.Num? && n.value != 0.0
  }

  function Shown(n: NumField): string {
    if n.Num? then n.shown else ""
  }

  /** A line-item row of the form; `id` is set for an item that already
      exists on the server. */
  datatype FormItem = FormItem(id: Option<nat>, quantity: NumField, description: string,
                               rate: NumField)

  /** `item.id` is truthy. */
  predicate HasId(item: FormItem) {
    item.id.Some? && item.id.value != 0
  }

  datatype FormValues = FormValues(vendorId: string, date: DateInput, paymentDays: NumField,
                                   paymentTerms: string, notes: string, approvalStamp: string,
                                   lineItems: seq<FormItem>)

  /** The values a new order starts with. */
  function InitialValues(today: Date): FormValues {
    FormValues("", OnDate(today), Num("30", 30.0), "", "", "both", [])
  }

  // ---------------------------------------------------------------------
  // Validation schema

  datatype FieldError = FieldError(path: string, message: string)

  /** The first failing test of `number().required().positive()`. */
  function PositiveError(n: NumField, required: string, positive: string): Option<string> {
    if n.Blank? then Some(required)
    else if !(n.value > 0.0) then Some(positive)
    else None
  }

  function ItemErrors(index: nat, item: FormItem): seq<FieldError> {
    var prefix := "line_items[" + NatToString(index) + "].";
    (match PositiveError(item.quantity, "Quantity is required", "Quantity must be positive")
     case Some(m) => [FieldError(prefix + "quantity", m)]
     case None => [])
    + (if item.description == "" then [FieldError(prefix + "description", "Description is required")]
       else [])
    + (match PositiveError(item.rate, "Rate is required", "Rate must be positive")
       case Some(m) => [FieldError(prefix + "rate", m)]
       case None => [])
  }

  function ItemsErrors(start: nat, items: seq<FormItem>): seq<FieldError>
    decreases |items|
  {
    if items == [] then [] else ItemErrors(start, items[0]) + ItemsErrors(start + 1, items[1..])
  }

  /** `PurchaseOrderSchema`: one message per failing path, the first
      failing test of each field. */
  function SchemaErrors(v: FormValues): seq<FieldError> {
    (if v.vendorId == "" then [FieldError("vendor_id", "Vendor is required")] else [])
    + (if v.date.NoDate? then [FieldError("date", "Date is required")] else [])
    + (match PositiveError(v.paymentDays, "Payment days is required", "Payment days must be positive")
       case Some(m) => [FieldError("payment_days", m)]
       case None =>
         if v.paymentDays.value != v.paymentDays.value.Floor as real
         then [FieldError("payment_days", "Payment days must be an integer")] else [])
    + (if v.approvalStamp == "" then [FieldError("approval_stamp", "Approval stamp selection is required")]
       else [])
    + (if v.lineItems == [] then [FieldError("line_items", "At least one line item is required")]
       else ItemsErrors(0, v.lineItems))
  }

  /** A line item the schema accepts. */
  predicate ValidItem(item: FormItem) {
    item.quantity.Num? && item.quantity.value > 0.0 && item.description != "" &&
    item.rate.Num? && item.rate.value > 0.0
  }

  lemma {:induction false} ItemsErrorsEmpty(start: nat, items: seq<FormItem>)
    ensures ItemsErrors(start, items) == [] <==> forall i :: 0 <= i < |items| ==> ValidItem(items[i])
    decreases |items|
  {
    if items != [] {
      ItemsErrorsEmpty(start + 1, items[1..]);
      assert forall i :: 1 <= i < |items| ==> items[i] == items[1..][i - 1];
    }
  }

  /** The schema accepts the values exactly when there is a vendor, a date
      and a stamp, the payment days are a positive integer, and there is
      at least one item, each with a positive quantity and rate and a
      description. */
  lemma {:induction false} SchemaAccepts(v: FormValues)
    ensures SchemaErrors(v) == [] <==>
              v.vendorId != "" && v.date.OnDate? && v.approvalStamp != "" &&
              v.paymentDays.Num? && v.paymentDays.value > 0.0 &&
              v.paymentDays.value == v.paymentDays.value.Floor as real &&
              |v.lineItems| >= 1 && forall i :: 0 <= i < |v.lineItems| ==> ValidItem(v.lineItems[i])
  {
    ItemsErrorsEmpty(0, v.lineItems);
  }

  /** The default stamp value passes the schema's `required` test, but it
      is none of the model's choices, so the backend refuses it. */
  lemma {:induction false} DefaultStampRefused(today: Date)
    ensures InitialValues(today).approvalStamp != ""
    ensures Models.ParseStamp(InitialValues(today).approvalStamp).None?
  {
  }

  // ---------------------------------------------------------------------
  // Saved line-item picker

  /** A saved line-item template as listed by the API. */
  datatype Template = Template(id: nat, name: string, lineItem: FormItem)

  predicate Selected(selection: seq<Template>, id: nat) {
    exists i :: 0 <= i < |selection| && selection[i].id == id
  }

  /** `selection.filter(item => item.id !== id)`. */
  function Without(selection: seq<Template>, id: nat): (r: seq<Template>)
    ensures forall k :: Selected(r, k) <==> Selected(selection, k) && k != id
    ensures |r| <= |selection|
  {
    if selection == [] then []
    else if selection[0].id == id then Without(selection[1..], id)
    else
      var rest := Without(selection[1..], id);
      assert forall k :: Selected(selection, k) <==> selection[0].id == k || Selected(selection[1..], k) by {
        forall k ensures Selected(selection, k) <==> selection[0].id == k || Selected(selection[1..], k) {
          if Selected(selection, k) {
            var i :| 0 <= i < |selection| && selection[i].id == k;
            if i > 0 { assert selection[1..][i - 1].id == k; }
          }
          if Selected(selection[1..], k) {
            var i :| 0 <= i < |selection[1..]| && selection[1..][i].id == k;
            assert selection[i + 1].id == k;
          }
        }
      }
      assert forall k :: Selected([selection[0]] + rest, k) <==> selection[0].id == k || Selected(rest, k) by {
        forall k ensures Selected([selection[0]] + rest, k) <==> selection[0].id == k || Selected(rest, k) {
          var s := [selection[0]] + rest;
          if Selected(s, k) {
            var i :| 0 <= i < |s| && s[i].id == k;
            if i > 0 { assert rest[i - 1].id == k; }
          }
          if Selected(rest, k) {
            var i :| 0 <= i < |rest| && rest[i].id == k;
            assert s[i + 1].id == k;
          }
          assert s[0].id == selection[0].id;
        }
      }
      [selection[0]] + rest
  }

  /** `handleSelectSavedLineItem`. */
  function Toggle(selection: seq<Template>, t: Template): seq<Template> {
    if Selected(selection, t.id) then Without(selection, t.id) else selection + [t]
  }

  /** Toggling flips whether the template's id is selected and no other. */
  lemma {:induction false} ToggleFlips(selection: seq<Template>, t: Template)
    ensures Selected(Toggle(selection, t), t.id) <==> !Selected(selection, t.id)
    ensures forall k :: k != t.id ==> (Selected(Toggle(selection, t), k) <==> Selected(selection, k))
  {
    if !Selected(selection, t.id) {
      var r := selection + [t];
      assert r[|selection|].id == t.id;
      forall k | k != t.id ensures Selected(r, k) <==> Selected(selection, k) {
        if Selected(selection, k) {
          var i :| 0 <= i < |selection| && selection[i].id == k;
          assert r[i].id == k;
        }
      }
    }
  }

  /** A template that was not selected is appended, and toggling it again
      gives the selection back. */
  lemma {:induction false} ToggleTwice(selection: seq<Template>, t: Template)
    requires !Selected(selection, t.id)
    ensures Toggle(selection, t) == selection + [t]
    ensures Toggle(Toggle(selection, t), t) == selection
  {
    ToggleFlips(selection, t);
    WithoutAbsent(selection, t);
  }

  lemma {:induction false} WithoutAbsent(selection: seq<Template>, t: Template)
    requires !Selected(selection, t.id)
    ensures Without(selection + [t], t.id) == selection
    decreases |selection|
  {
    if selection == [] {
      assert Without([t][1..], t.id) == [];
    } else {
      assert (selection + [t])[1..] == selection[1..] + [t];
      forall i | 0 <= i < |selection| - 1 ensures selection[1..][i].id != t.id {
        assert selection[1..][i] == selection[i + 1];
      }
      assert selection[0].id != t.id;
      WithoutAbsent(selection[1..], t);
      assert [selection[0]] + selection[1..] == selection;
    }
  }

  /** The result of `handleApplySavedLineItems`: the new rows, the emptied
      selection, and how many templates were applied. */
  datatype Applied = Applied(lineItems: seq<FormItem>, selection: seq<Template>, added: nat)

  function ClearedItem(t: Template): FormItem {
    t.lineItem.(id := None)
  }

  /** The existing rows followed by the selected templates' items, in
      selection order, with their ids cleared. */
  function Apply(lineItems: seq<FormItem>, selection: seq<Template>): (r: Applied)
    ensures |r.lineItems| == |lineItems| + |selection| && r.lineItems[..|lineItems|] == lineItems
    ensures forall k :: 0 <= k < |selection| ==>
              r.lineItems[|lineItems| + k] == selection[k].lineItem.(id := None)
    ensures r.selection == [] && r.added == |selection|
  {
    Applied(lineItems + seq(|selection|, k requires 0 <= k < |selection| => ClearedItem(selection[k])),
            [], |selection|)
  }

  // ---------------------------------------------------------------------
  // Ids of existing and new items

  /** `line_items.filter(item => item.id).map(item => item.id)`. */
  function ExistingIds(items: seq<FormItem>): seq<nat>
    decreases |items|
  {
    if items == [] then []
    else ExistingIds(items[..|items| - 1])
         + (if HasId(items[|items| - 1]) then [items[|items| - 1].id.value] else [])
  }

  /** `line_items.filter(item => !item.id)`. */
  function NewItems(items: seq<FormItem>): seq<FormItem>
    decreases |items|
  {
    if items == [] then []
    else NewItems(items[..|items| - 1])
         + (if HasId(items[|items| - 1]) then [] else [items[|items| - 1]])
  }

  /** Both filters keep order across a concatenation, and together they
      account for every row once. */
  lemma {:induction false} IdsSplit(a: seq<FormItem>, b: seq<FormItem>)
    ensures ExistingIds(a + b) == ExistingIds(a) + ExistingIds(b)
    ensures NewItems(a + b) == NewItems(a) + NewItems(b)
    ensures |ExistingIds(a)| + |NewItems(a)| == |a|
  {
    ExistingIdsAppend(a, b);
    NewItemsAppend(a, b);
    IdsCount(a);
  }

  lemma {:induction false} ExistingIdsAppend(a: seq<FormItem>, b: seq<FormItem>)
    ensures ExistingIds(a + b) == ExistingIds(a) + ExistingIds(b)
    decreases |b|
  {
    if b == [] {
      assert a + b == a;
    } else {
      var b0 := b[..|b| - 1];
      assert (a + b)[..|a + b| - 1] == a + b0;
      assert (a + b)[|a + b| - 1] == b[|b| - 1];
      ExistingIdsAppend(a, b0);
    }
  }

  lemma {:induction false} NewItemsAppend(a: seq<FormItem>, b: seq<FormItem>)
    ensures NewItems(a + b) == NewItems(a) + NewItems(b)
    decreases |b|
  {
    if b == [] {
      assert a + b == a;
    } else {
      var b0 := b[..|b| - 1];
      assert (a + b)[..|a + b| - 1] == a + b0;
      assert (a + b)[|a + b| - 1] == b[|b| - 1];
      NewItemsAppend(a, b0);
    }
  }

  lemma {:induction false} IdsCount(a: seq<FormItem>)
    ensures |ExistingIds(a)| + |NewItems(a)| == |a|
    decreases |a|
  {
    if a != [] {
      IdsCount(a[..|a| - 1]);
    }
  }

  /** Applied templates never carry ids: they are all created anew on
      submit, after the items that already exist. */
  lemma {:induction false} ApplyAddsNewItems(lineItems: seq<FormItem>, selection: seq<Template>)
    ensures var r := Apply(lineItems, selection).lineItems;
            ExistingIds(r) == ExistingIds(lineItems) &&
            |NewItems(r)| == |NewItems(lineItems)| + |selection|
  {
    var added := seq(|selection|, k requires 0 <= k < |selection| => ClearedItem(selection[k]));
    var r := Apply(lineItems, selection).lineItems;
    assert r == lineItems + added;
    IdsSplit(lineItems, added);
    NoIds(added);
  }

  lemma {:induction false} NoIds(items: seq<FormItem>)
    requires forall i :: 0 <= i < |items| ==> items[i].id.None?
    ensures ExistingIds(items) == [] && NewItems(items) == items
    decreases |items|
  {
    if items != [] {
      var init := items[..|items| - 1];
      assert forall i :: 0 <= i < |init| ==> init[i] == items[i];
      NoIds(init);
      assert !HasId(items[|items| - 1]);
      assert init + [items[|items| - 1]] == items;
    }
  }

  // ---------------------------------------------------------------------
  // Submitting

  /** The row's quantity, description and rate are all truthy. */
  predicate Complete(item: FormItem) {
    NumTruthy(item.quantity) && item.description != "" && NumTruthy(item.rate)
  }

  /** Every row in `xs` is complete. */
  predicate AllComplete(xs: seq<FormItem>) {
    forall j :: 0 <= j < |xs| ==> Complete(xs[j])
  }

  datatype SubmitCheck = MissingItems | IncompleteItems | Proceed

  /** `handleSubmit`'s checks before sending. */
  function CheckSubmit(v: FormValues): (c: SubmitCheck)
    ensures c == MissingItems <==> v.lineItems == []
    ensures c == Proceed <==> v.lineItems != [] && forall i :: 0 <= i < |v.lineItems| ==> Complete(v.lineItems[i])
  {
    if v.lineItems == [] then MissingItems
    else if exists i :: 0 <= i < |v.lineItems| && !Complete(v.lineItems[i]) then IncompleteItems
    else Proceed
  }

  /** Values the schema accepts pass the submit checks. */
  lemma {:induction false} SchemaValidSubmits(v: FormValues)
    requires SchemaErrors(v) == []
    ensures CheckSubmit(v) == Proceed
  {
    SchemaAccepts(v);
  }

  /** A multipart form entry's value. */
  datatype FormValue = Text(text: string) | File(fileName: string)

  type FormData = seq<(string, FormValue)>

  /** `FormData.delete(name)`. */
  function Delete(form: FormData, name: string): (r: FormData)
    ensures forall i :: 0 <= i < |r| ==> r[i].0 != name
    ensures form == [] ==> r == []
  {
    if form == [] then []
    else (if form[0].0 == name then [] else [form[0]]) + Delete(form[1..], name)
  }

  /** The values of the entries called `name`, in order. */
  function Values(form: FormData, name: string): seq<FormValue> {
    if form == [] then []
    else (if form[0].0 == name then [form[0].1] else []) + Values(form[1..], name)
  }

  lemma {:induction false} ValuesAppend(a: FormData, b: FormData, name: string)
    ensures Values(a + b, name) == Values(a, name) + Values(b, name)
    decreases |a|
  {
    if a == [] {
      assert a + b == b;
    } else {
      var head: seq<FormValue> := if a[0].0 == name then [a[0].1] else [];
      assert (a + b)[0] == a[0];
      assert (a + b)[1..] == a[1..] + b;
      assert Values(a + b, name) == head + Values(a[1..] + b, name);
      assert Values(a, name) == head + Values(a[1..], name);
      ValuesAppend(a[1..], b, name);
    }
  }

  lemma {:induction false} DeleteRemoves(form: FormData, name: string)
    ensures Values(Delete(form, name), name) == []
    ensures forall other :: other != name ==> Values(Delete(form, name), other) == Values(form, other)
    decreases |form|
  {
    if form != [] {
      DeleteRemoves(form[1..], name);
      var head: FormData := if form[0].0 == name then [] else [form[0]];
      forall other ensures Values(Delete(form, name), other) == Values(head, other) + Values(Delete(form[1..], name), other) {
        ValuesAppend(head, Delete(form[1..], name), other);
      }
    }
  }

  /** `JSON.stringify` of a list of ids. */
  function IdsJson(ids: seq<nat>): string {
    "[" + Join(seq(|ids|, i requires 0 <= i < |ids| => NatToString(ids[i])), ",") + "]"
  }

  /** The JSON value the server loads from `IdsJson(ids)`. */
  function IdsValue(ids: seq<nat>): Json {
    JArray(seq(|ids|, i requires 0 <= i < |ids| => JNumber(ids[i])))
  }

  /** The scalar entries appended before the ids, in order. */
  function BaseForm(v: FormValues): FormData {
    [("vendor_id", Text(v.vendorId)), ("payment_days", Text(Shown(v.paymentDays))),
     ("payment_terms", Text(v.paymentTerms)), ("notes", Text(v.notes)),
     ("approval_stamp", Text(v.approvalStamp)), ("signature", File("signature.png"))]
  }

  datatype Submission = Sent(form: FormData) | Stopped(message: string)

  const SignatureFailed: string := "Failed to generate signature"
  const IncompleteMessage: string := "All line items must have quantity, description, and rate"
  const NoItemsMessage: string := "At least one line item is required"

  /** The ids the form finally carries: those of the existing rows, then
      those the server returned for the newly created rows (only when there
      are new rows to create). */
  function MergedIds(items: seq<FormItem>, created: seq<nat>): seq<nat> {
    ExistingIds(items) + (if NewItems(items) != [] then created else [])
  }

  /** The form built by `submitPurchaseOrderWithValues` up to the request.
      `signature` is the generated image (`None` when there is no user) and
      `created` the ids returned by the line-item posts, in order. */
  method BuildSubmission(v: FormValues, signature: Option<string>, created: seq<nat>)
    returns (r: Submission)
    ensures signature.None? ==> r == Stopped(SignatureFailed)
    ensures r.Sent? <==>
              signature.Some? &&
              AllComplete(NewItems(v.lineItems)) &&
              MergedIds(v.lineItems, created) != []
    ensures r.Sent? ==> r.form == BaseForm(v) + [("line_item_ids", Text(IdsJson(MergedIds(v.lineItems, created))))]
    ensures r.Sent? ==> Values(r.form, "line_item_ids") == [Text(IdsJson(MergedIds(v.lineItems, created)))]
    ensures r.Stopped? && signature.Some? ==> r.message in {IncompleteMessage, NoItemsMessage}
    ensures r.Stopped? && signature.Some? ==>
              (r.message == IncompleteMessage <==> !AllComplete(NewItems(v.lineItems)))
  {
    if signature.None? {
      return Stopped(SignatureFailed);
    }
    var form := BaseForm(v);
    var existing := ExistingIds(v.lineItems);
    if |existing| > 0 {
      form := form + [("line_item_ids", Text(IdsJson(existing)))];
    }
    var newItems := NewItems(v.lineItems);
    if |newItems| > 0 {
      for i := 0 to |newItems|
        invariant forall j :: 0 <= j < i ==> Complete(newItems[j])
      {
        if !Complete(newItems[i]) {
          assert !AllComplete(newItems);
          return Stopped(IncompleteMessage);
        }
      }
      if |existing| == 0 && |created| == 0 {
        return Stopped(NoItemsMessage);
      }
      if |existing| > 0 {
        BaseFormHasNoIds(v);
        form := Delete(form, "line_item_ids");
        form := form + [("line_item_ids", Text(IdsJson(existing + created)))];
      } else {
        assert MergedIds(v.lineItems, created) == created;
        form := form + [("line_item_ids", Text(IdsJson(created)))];
      }
    } else if |existing| == 0 {
      return Stopped(NoItemsMessage);
    } else {
      assert MergedIds(v.lineItems, created) == existing;
    }
    ValuesAppend(BaseForm(v), [("line_item_ids", Text(IdsJson(MergedIds(v.lineItems, created))))],
                 "line_item_ids");
    ValuesAbsent(BaseForm(v), "line_item_ids");
    return Sent(form);
  }

  /** Deleting the ids entry from the scalar entries and one ids entry
      leaves the scalar entries. */
  lemma {:induction false} BaseFormHasNoIds(v: FormValues)
    ensures forall x :: Delete(BaseForm(v) + [("line_item_ids", x)], "line_item_ids") == BaseForm(v)
  {
    var name := "line_item_ids";
    forall x ensures Delete(BaseForm(v) + [(name, x)], name) == BaseForm(v) {
      DeleteAppend(BaseForm(v), [(name, x)], name);
      DeleteAbsent(BaseForm(v), name);
      assert Delete([(name, x)], name) == [] + Delete([], name);
    }
  }

  lemma {:induction false} DeleteAppend(a: FormData, b: FormData, name: string)
    ensures Delete(a + b, name) == Delete(a, name) + Delete(b, name)
    decreases |a|
  {
    if a == [] {
      assert a + b == b;
    } else {
      assert (a + b)[1..] == a[1..] + b;
      DeleteAppend(a[1..], b, name);
    }
  }

  lemma {:induction false} ValuesAbsent(form: FormData, name: string)
    requires forall i :: 0 <= i < |form| ==> form[i].0 != name
    ensures Values(form, name) == []
    decreases |form|
  {
    if form != [] {
      ValuesAbsent(form[1..], name);
    }
  }

  /** Deleting a name no entry has changes nothing. */
  lemma {:induction false} DeleteAbsent(form: FormData, name: string)
    requires forall i :: 0 <= i < |form| ==> form[i].0 != name
    ensures Delete(form, name) == form
    decreases |form|
  {
    if form != [] {
      DeleteAbsent(form[1..], name);
      assert [form[0]] + form[1..] == form;
    }
  }

  /** A form that was sent carries a signature and a non-empty list of ids,
      so once the server has loaded that list the views' checks pass it on
      create and on update. */
  lemma {:induction false} SentPassesChecks(v: FormValues, signature: string, created: seq<nat>, isUpdate: bool)
    requires signature != ""
    requires MergedIds(v.lineItems, created) != []
    ensures var ids := MergedIds(v.lineItems, created);
            var req := Views.Request(Some(signature), Some(Parsed(IdsValue(ids))));
            Views.CheckRequest(req, isUpdate) == Views.Passed(Some(IdsValue(ids).items))
  {
  }

  // ---------------------------------------------------------------------
  // Signature name and summary

  datatype User = User(username: string, firstName: string, lastName: string)

  /** The name `generateSignature` writes: first and last name when both
      are set, otherwise the username; nothing without a user. */
  function SignatureName(user: Option<User>): (r: Option<string>)
    ensures r.None? <==> user.None?
    ensures user.Some? && user.value.firstName != "" && user.value.lastName != "" ==>
              r == Some(user.value.firstName + " " + user.value.lastName)
    ensures user.Some? && (user.value.firstName == "" || user.value.lastName == "") ==>
              r == Some(user.value.username)
  {
    match user
    case None => None
    case Some(u) => Some(if u.firstName != "" && u.lastName != "" then u.firstName + " " + u.lastName
                         else u.username)
  }

  /** For a user with both names and no surrounding whitespace the drawn
      signature and the PDF's "generated by" name agree. */
  lemma {:induction false} SignatureAgreesWithPdf(u: User)
    requires u.firstName != "" && u.lastName != ""
    requires !IsPySpace(u.firstName[0]) && !IsPySpace(u.lastName[|u.lastName| - 1])
    ensures SignatureName(Some(u)) == Some(Views.GeneratedBy(u.firstName, u.lastName, u.username))
  {
    var full := u.firstName + " " + u.lastName;
    assert full[0] == u.firstName[0] && full[|full| - 1] == u.lastName[|u.lastName| - 1];
    TrimUnchanged(PySpace, full);
  }

  /** With only a first name the signature shows the username while the
      PDF names the person. */
  lemma {:induction false} SignatureDiffersWithFirstNameOnly()
    ensures SignatureName(Some(User("jdoe", "Ann", ""))) == Some("jdoe")
    ensures Views.GeneratedBy("Ann", "", "jdoe") == "Ann"
  {
    var full := "Ann" + " " + "";
    assert full == "Ann ";
    assert TrimStart(PySpace, full) == full;
    assert TrimEnd(PySpace, "Ann") == "Ann";
    assert TrimEnd(PySpace, full) == "Ann";
  }

  /** The summary's payment-terms text. */
  function SummaryTerms(terms: string, paymentDays: NumField): string {
    if terms != "" then terms + " (" + Shown(paymentDays) + " days)"
    else "Net " + Shown(paymentDays) + " days"
  }

  /** For whole payment days the summary shows the PDF's payment text
      exactly when there are no terms: with terms the two always differ
      in length. */
  lemma {:induction false} SummaryMatchesPdfIffNoTerms(terms: string, days: nat)
    ensures var shown := Num(NatToString(days), days as real);
            SummaryTerms(terms, shown) == Views.PaymentText(days, terms) <==> terms == ""
  {
    var n := NatToString(days);
    if terms != "" {
      assert |SummaryTerms(terms, Num(n, days as real))| == |terms| + |n| + 8;
      assert |Views.PaymentText(days, terms)| == |n| + 12 + |terms|;
    }
  }
}
