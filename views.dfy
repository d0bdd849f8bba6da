/** The purchase-order views: the checks `create` and `update` make on the
    raw request before the serializer sees it, the per-user listing
    filters, and the text the server-side PDF writes (payment line, line
    rows, chunked descriptions and notes, stamp file, signer, and the
    `Content-Disposition` header). Drawing and coordinates are not part of
    this model. */
module Views {
  import opened Common
  import opened Dates
  import opened Money
  import opened Json
  import opened Models
  import Serializers

  // ---------------------------------------------------------------------
  // Request checks of create and update

  /** The multipart request as the views read it: the `signature` entry
      (its text, or the uploaded file's name; a file is truthy when it has
      a name) and the `line_item_ids` entry, given as the outcome of
      `json.loads` on it. */
  datatype Request = Request(signature: Option<string>, lineItemIds: Option<JsonParse>)

  /** Either a 400 response keyed by a field, or the request data handed on,
      with `line_item_ids` replaced by one list entry per id (`None` when
      the request had no such entry). */
  datatype Checked = Rejected(field: string, message: string) | Passed(ids: Option<seq<Json>>)

  const SignatureRequired: string := "Signature is required."
  const InvalidIdsFormat: string := "Invalid line item IDs format."
  const InvalidJson: string := "Invalid JSON format."
  const IdsRequired: string := "At least one line item is required."

  predicate HasSignature(r: Request) {
    r.signature.Some? && r.signature.value != ""
  }

  /** The ids list as the views accept it: a non-empty JSON array. */
  predicate AcceptedIds(v: Json) {
    PyTruthy(v) && v.JArray?
  }

  /** The outcome of the checks, in the views' order: signature, then the
      ids entry (required on create, optional on update), its JSON, and its
      shape. */
  function CheckRequest(r: Request, isUpdate: bool): (c: Checked)
    ensures !HasSignature(r) ==> c == Rejected("signature", SignatureRequired)
    ensures HasSignature(r) && r.lineItemIds.None? ==>
              c == (if isUpdate then Passed(None) else Rejected("line_item_ids", IdsRequired))
    ensures HasSignature(r) && r.lineItemIds == Some(Malformed) ==>
              c == Rejected("line_item_ids", InvalidJson)
    ensures HasSignature(r) && r.lineItemIds.Some? && r.lineItemIds.value.Parsed? ==>
              var v := r.lineItemIds.value.value;
              c == if AcceptedIds(v) then Passed(Some(v.items))
                   else Rejected("line_item_ids", InvalidIdsFormat)
  {
    if !HasSignature(r) then Rejected("signature", SignatureRequired)
    else match r.lineItemIds
      case None => if isUpdate then Passed(None) else Rejected("line_item_ids", IdsRequired)
      case Some(Malformed) => Rejected("line_item_ids", InvalidJson)
      case Some(Parsed(v)) =>
        if !PyTruthy(v) || !v.JArray? then Rejected("line_item_ids", InvalidIdsFormat)
        else Passed(Some(v.items))
  }

  /** A request that passes carries a signature and, on create, a non-empty
      list of ids; on update the ids are absent or a non-empty list. */
  lemma {:induction false} PassedRequest(r: Request, isUpdate: bool)
    requires CheckRequest(r, isUpdate).Passed?
    ensures HasSignature(r)
    ensures !isUpdate ==> CheckRequest(r, isUpdate).ids.Some?
    ensures CheckRequest(r, isUpdate).ids.Some? ==>
              |CheckRequest(r, isUpdate).ids.value| >= 1 &&
              r.lineItemIds == Some(Parsed(JArray(CheckRequest(r, isUpdate).ids.value)))
    ensures CheckRequest(r, isUpdate).ids.None? ==> isUpdate && r.lineItemIds.None?
  {
  }

  /** Update applies the same checks as create, except that a missing ids
      entry is allowed. */
  lemma {:induction false} UpdateChecksAsCreate(r: Request)
    ensures r.lineItemIds.Some? || !HasSignature(r) ==>
              CheckRequest(r, true) == CheckRequest(r, false)
  {
  }

  /** `data.pop('line_item_ids')` and the `appendlist` loop: the checks
      above, with the ids copied one by one in list order. */
  method CheckAndCopy(r: Request, isUpdate: bool) returns (c: Checked)
    ensures c == CheckRequest(r, isUpdate)
  {
    if r.signature.None? || r.signature.value == "" {
      return Rejected("signature", SignatureRequired);
    }
    if r.lineItemIds.None? {
      if isUpdate {
        return Passed(None);
      }
      return Rejected("line_item_ids", IdsRequired);
    }
    match r.lineItemIds.value {
      case Malformed =>
        return Rejected("line_item_ids", InvalidJson);
      case Parsed(v) =>
        if !PyTruthy(v) || !v.JArray? {
          return Rejected("line_item_ids", InvalidIdsFormat);
        }
        var list: seq<Json> := [];
        var i := 0;
        while i < |v.items|
          invariant 0 <= i <= |v.items|
          invariant list == v.items[..i]
        {
          list := list + [v.items[i]];
          i := i + 1;
        }
        assert list == v.items;
        return Passed(Some(list));
    }
  }

  /** The `line_items` entry the serializer reads from the copied form
      data. The ids the view appended resolve to `resolved`. A form without
      the field reads as an empty list, except on a partial update, where
      the field is left out. `partial` is `kwargs.pop('partial', False)`:
      false for `PUT` and for create. */
  function ItemsEntry(ids: Option<seq<Json>>, resolved: seq<nat>, partial: bool): (e: Option<seq<nat>>)
    ensures ids.Some? ==> e == Some(resolved)
    ensures ids.None? ==> (e.None? <==> partial) && (e.Some? ==> e.value == [])
  {
    if ids.Some? then Some(resolved) else if partial then None else Some([])
  }

  /** Once every id of a request that passed resolves to a line item, the
      serializer's own check passes exactly when the request carried ids or
      the update is partial: a full update without ids reaches `validate`
      with an empty item list and is refused. */
  lemma {:induction false} PassedRequestValidates(r: Request, isUpdate: bool, partial: bool,
                               assigns: seq<Assignment>, resolved: seq<nat>)
    requires CheckRequest(r, isUpdate).Passed?
    requires CheckRequest(r, isUpdate).ids.Some? ==> |resolved| == |CheckRequest(r, isUpdate).ids.value|
    ensures var ids := CheckRequest(r, isUpdate).ids;
            var data := Serializers.ValidatedData(assigns, ItemsEntry(ids, resolved, isUpdate && partial));
            Serializers.Validate(isUpdate, data).Ok? <==> ids.Some? || (isUpdate && partial)
  {
    PassedRequest(r, isUpdate);
    var ids := CheckRequest(r, isUpdate).ids;
    if ids.Some? {
      assert |resolved| >= 1;
    }
  }

  // ---------------------------------------------------------------------
  // Listing filters

  /** `objects.filter(user=request.user)`: the rows of `user`, in table
      order. */
  function OwnedBy<T(!new)>(rows: seq<T>, ownerOf: T -> nat, user: nat): (r: seq<T>)
    ensures |r| <= |rows|
    ensures forall x :: x in r <==> x in rows && ownerOf(x) == user
  {
    if rows == [] then []
    else
      var init := OwnedBy(rows[..|rows| - 1], ownerOf, user);
      var last := rows[|rows| - 1];
      assert rows == rows[..|rows| - 1] + [last];
      if ownerOf(last) == user then init + [last] else init
  }

  /** Filtering keeps table order: it distributes over concatenation. */
  lemma {:induction false} OwnedByAppend<T(!new)>(a: seq<T>, b: seq<T>, ownerOf: T -> nat, user: nat)
    ensures OwnedBy(a + b, ownerOf, user) == OwnedBy(a, ownerOf, user) + OwnedBy(b, ownerOf, user)
    decreases |b|
  {
    if b == [] {
      assert a + b == a;
    } else {
      var init := b[..|b| - 1];
      assert (a + b)[..|a + b| - 1] == a + init;
      assert (a + b)[|a + b| - 1] == b[|b| - 1];
      OwnedByAppend(a, init, ownerOf, user);
    }
  }

  function SavedVendorOwner(v: SavedVendor): nat { v.user }
  function SavedLineItemOwner(v: SavedLineItem): nat { v.user }
  function OrderOwner(p: PoState): nat { p.user }

  /** `SavedVendorViewSet.get_queryset`. */
  function SavedVendorsOf(rows: seq<SavedVendor>, user: nat): seq<SavedVendor> {
    OwnedBy(rows, SavedVendorOwner, user)
  }

  /** `SavedLineItemViewSet.get_queryset`. */
  function SavedLineItemsOf(rows: seq<SavedLineItem>, user: nat): seq<SavedLineItem> {
    OwnedBy(rows, SavedLineItemOwner, user)
  }

  /** `PurchaseOrderViewSet.get_queryset`. */
  function OrdersOf(rows: seq<PoState>, user: nat): seq<PoState> {
    OwnedBy(rows, OrderOwner, user)
  }

  /** A template a user creates through the API shows up in that user's
      list, after the ones already there, and in nobody else's. */
  lemma {:induction false} CreatedVendorTemplateVisibility(rows: seq<SavedVendor>, requestUser: nat, other: nat,
                                        vendor: nat, name: string)
    requires other != requestUser
    ensures var t := Serializers.CreateSavedVendor(requestUser, vendor, name);
            SavedVendorsOf(rows + [t], requestUser) == SavedVendorsOf(rows, requestUser) + [t] &&
            SavedVendorsOf(rows + [t], other) == SavedVendorsOf(rows, other)
  {
    var t := Serializers.CreateSavedVendor(requestUser, vendor, name);
    OwnedByAppend(rows, [t], SavedVendorOwner, requestUser);
    OwnedByAppend(rows, [t], SavedVendorOwner, other);
    assert [t][..0] == [];
  }

  lemma {:induction false} CreatedLineItemTemplateVisibility(rows: seq<SavedLineItem>, requestUser: nat,
                                          other: nat, lineItem: nat, name: string)
    requires other != requestUser
    ensures var t := Serializers.CreateSavedLineItem(requestUser, lineItem, name);
            SavedLineItemsOf(rows + [t], requestUser) == SavedLineItemsOf(rows, requestUser) + [t] &&
            SavedLineItemsOf(rows + [t], other) == SavedLineItemsOf(rows, other)
  {
    var t := Serializers.CreateSavedLineItem(requestUser, lineItem, name);
    OwnedByAppend(rows, [t], SavedLineItemOwner, requestUser);
    OwnedByAppend(rows, [t], SavedLineItemOwner, other);
    assert [t][..0] == [];
  }

  /** A user never sees an order of someone else. */
  lemma {:induction false} OrdersOfOnlyOwn(rows: seq<PoState>, user: nat)
    ensures forall p :: p in OrdersOf(rows, user) ==> p.user == user && p in rows
  {
  }

  // ---------------------------------------------------------------------
  // PDF text

  /** `[s[i:i+n] for i in range(0, len(s), n)]`. */
  function Chunks(s: string, n: nat): (r: seq<string>)
    requires n > 0
    ensures s == [] <==> r == []
    ensures forall i :: 0 <= i < |r| ==> 1 <= |r[i]| <= n
    ensures forall i :: 0 <= i < |r| - 1 ==> |r[i]| == n
    ensures Concat(r) == s
    decreases |s|
  {
    if s == [] then []
    else if |s| <= n then [s]
    else
      var rest := Chunks(s[n..], n);
      assert Concat([s[..n]] + rest) == s[..n] + Concat(rest) by {
        ConcatCons(s[..n], rest);
      }
      assert s == s[..n] + s[n..];
      [s[..n]] + rest
  }

  function Concat(parts: seq<string>): string {
    if parts == [] then [] else parts[0] + Concat(parts[1..])
  }

  lemma {:induction false} ConcatCons(head: string, rest: seq<string>)
    ensures Concat([head] + rest) == head + Concat(rest)
  {
    assert ([head] + rest)[1..] == rest;
  }

  /** The number of chunks is `len(s) / n` rounded up. */
  lemma {:induction false} ChunkCount(s: string, n: nat)
    requires n > 0
    ensures var k := |Chunks(s, n)|; (k - 1) * n < |s| <= k * n
    decreases |s|
  {
    if s == [] {
      assert |Chunks(s, n)| == 0;
    } else if |s| <= n {
      assert |Chunks(s, n)| == 1;
    } else {
      ChunkCount(s[n..], n);
      var k := |Chunks(s[n..], n)|;
      assert |Chunks(s, n)| == k + 1;
      CeilStep(k, n, |s|);
    }
  }

  lemma {:induction false} CeilStep(k: int, n: int, len: int)
    requires (k - 1) * n < len - n <= k * n
    ensures k * n < len <= (k + 1) * n
  {
    assert (k - 1) * n == k * n - n;
    assert (k + 1) * n == k * n + n;
  }

  const DescriptionWidth: nat := 50
  const NotesWidth: nat := 80

  /** The lines a description is drawn on. */
  function DescriptionLines(description: string): seq<string> {
    Chunks(description, DescriptionWidth)
  }

  /** The notes block: drawn only when there are notes, then in lines of
      80 characters. */
  function NotesLines(notes: string): (r: Option<seq<string>>)
    ensures r.None? <==> notes == ""
    ensures r.Some? ==> r.value != [] && Concat(r.value) == notes
    ensures r.Some? ==> forall i :: 0 <= i < |r.value| ==> 1 <= |r.value[i]| <= 80
    ensures r.Some? ==> forall i :: 0 <= i < |r.value| - 1 ==> |r.value[i]| == 80
  {
    if notes != "" then Some(Chunks(notes, NotesWidth)) else None
  }

  /** `Net {payment_days} days`, with ` - {payment_terms}` when there are
      terms. */
  function PaymentText(days: nat, terms: string): string {
    "Net " + NatToString(days) + " days" + (if terms != "" then " - " + terms else "")
  }

  /** The payment line starts with the days and carries the terms exactly
      when there are terms. */
  lemma {:induction false} PaymentTextParts(days: nat, terms: string)
    ensures var base := "Net " + NatToString(days) + " days";
            var t := PaymentText(days, terms);
            |base| <= |t| && t[..|base|] == base &&
            (terms == "" <==> |t| == |base|) &&
            (terms != "" ==> t[|base|..] == " - " + terms)
  {
    var base := "Net " + NatToString(days) + " days";
    var t := PaymentText(days, terms);
    if terms != "" {
      assert t == base + (" - " + terms);
    } else {
      assert t == base;
    }
  }

  /** The digits after `Net ` end at the first space. */
  lemma {:induction false} DaysDigitsUnique(p1: string, p2: string, r1: string, r2: string)
    requires AllDigits(p1) && AllDigits(p2)
    requires "Net " + p1 + " days" + r1 == "Net " + p2 + " days" + r2
    ensures p1 == p2
  {
    var x := "Net " + p1 + " days" + r1;
    var y := "Net " + p2 + " days" + r2;
    assert x[4..4 + |p1|] == p1 && x[4 + |p1|] == ' ';
    assert y[4..4 + |p2|] == p2 && y[4 + |p2|] == ' ';
    DigitRunOf(x, 4, p1);
    DigitRunOf(y, 4, p2);
    assert p1 == x[4..4 + |p1|];
    assert p2 == y[4..4 + |p2|];
  }

  /** The length of the run of digits starting at `i`. */
  function DigitRun(s: string, i: nat): (k: nat)
    requires i <= |s|
    ensures i + k <= |s|
    decreases |s| - i
  {
    if i < |s| && IsDigit(s[i]) then 1 + DigitRun(s, i + 1) else 0
  }

  /** A digit string followed by a non-digit is the whole run. */
  lemma {:induction false} DigitRunOf(s: string, i: nat, d: string)
    requires i + |d| < |s| && s[i..i + |d|] == d && AllDigits(d) && !IsDigit(s[i + |d|])
    ensures DigitRun(s, i) == |d|
    decreases |d|
  {
    if d != [] {
      assert s[i] == d[0];
      assert s[i + 1..i + 1 + |d[1..]|] == d[1..];
      DigitRunOf(s, i + 1, d[1..]);
    }
  }

  /** Two payment lines are equal only for the same days and terms. */
  lemma {:induction false} PaymentTextInjective(d1: nat, t1: string, d2: nat, t2: string)
    requires PaymentText(d1, t1) == PaymentText(d2, t2)
    ensures d1 == d2 && t1 == t2
  {
    NatToStringShape(d1);
    NatToStringShape(d2);
    var r1 := if t1 != "" then " - " + t1 else "";
    var r2 := if t2 != "" then " - " + t2 else "";
    assert PaymentText(d1, t1) == "Net " + NatToString(d1) + " days" + r1;
    assert PaymentText(d2, t2) == "Net " + NatToString(d2) + " days" + r2;
    DaysDigitsUnique(NatToString(d1), NatToString(d2), r1, r2);
    NatToStringInjective(d1, d2);
    PaymentTextParts(d1, t1);
    PaymentTextParts(d2, t2);
    if t1 != "" && t2 != "" {
      assert t1 == r1[3..] && t2 == r2[3..];
    }
  }

  /** The texts of one table row: `str(quantity)`, the description lines,
      `${rate:.2f}` and `${amount:.2f}`. */
  datatype ItemRow = ItemRow(quantity: string, description: seq<string>, rate: string,
                             amount: string)

  function RowOf(item: LineItem): ItemRow {
    ItemRow(CentsText(item.quantity), DescriptionLines(item.description),
            "$" + CentsText(item.rate), "$" + AmountText(Amount(item)))
  }

  /** The row shows quantity and rate exactly, an amount within half a cent
      of the exact product, and the whole description. */
  lemma {:induction false} RowOfShows(item: LineItem)
    ensures ParseDigits2(RowOf(item).quantity) == Some(item.quantity)
    ensures RowOf(item).rate[1..] == CentsText(item.rate)
    ensures ParseDigits2(RowOf(item).rate[1..]) == Some(item.rate)
    ensures exists h :: ParseDigits2(RowOf(item).amount[1..]) == Some(h) &&
                        -50 <= Amount(item) - 100 * h <= 50
    ensures Concat(RowOf(item).description) == item.description
  {
    CentsTextRoundTrip(item.quantity);
    CentsTextRoundTrip(item.rate);
    AmountTextClose(Amount(item));
    assert RowOf(item).amount[1..] == AmountText(Amount(item));
  }

  /** `${total_amount:.2f}`. */
  function TotalText(items: seq<LineItem>): (r: string)
    ensures |r| >= 1 && r[0] == '$'
    ensures exists h :: ParseDigits2(r[1..]) == Some(h) && -50 <= Total(items) - 100 * h <= 50
    ensures var x := Total(items);
            ParseDigits2(r[1..]) == Some(if x < 0 then -(RoundHalfEven(-x) as int) else RoundHalfEven(x) as int)
  {
    var x := Total(items);
    AmountTextClose(x);
    AmountTextRounds(x);
    var t := "$" + AmountText(x);
    assert t[1..] == AmountText(x);
    t
  }

  /** The file of a selected stamp is `stamp-{approval_stamp}.png`; it is
      drawn when the stamp is not `none` and the file is among `files`. */
  function StampFile(stamp: ApprovalStamp, files: set<string>): (r: Option<string>)
    ensures r.Some? <==> stamp != NoStamp && "stamp-" + StampValue(stamp) + ".png" in files
  {
    if stamp != NoStamp then
      var name := "stamp-" + StampValue(stamp) + ".png";
      if name in files then Some(name) else None
    else None
  }

  /** Each stamp has its own file. */
  lemma {:induction false} StampFileDistinct(a: ApprovalStamp, b: ApprovalStamp, files: set<string>)
    requires StampFile(a, files).Some? && StampFile(a, files) == StampFile(b, files)
    ensures a == b
  {
    var na := "stamp-" + StampValue(a) + ".png";
    var nb := "stamp-" + StampValue(b) + ".png";
    assert na == nb;
    assert StampValue(a) == na[6..|na| - 4];
    assert StampValue(b) == nb[6..|nb| - 4];
    ParseStampExact(StampValue(a), a);
    ParseStampExact(StampValue(b), b);
  }

  /** `get_full_name() or username`: the stripped `first last`, or the
      username when that is empty. */
  function GeneratedBy(firstName: string, lastName: string, username: string): (r: string)
    ensures Strip(firstName + " " + lastName) != "" ==> r == Strip(firstName + " " + lastName)
    ensures AllSpace(PySpace, firstName + " " + lastName) ==> r == username
  {
    TrimEmptyIffBlank(PySpace, firstName + " " + lastName);
    var full := Strip(firstName + " " + lastName);
    if full != "" then full else username
  }

  /** The `filename` parameter of the header. */
  function FileNameParam(poNumber: string): string {
    "; filename=\"PO_" + poNumber + ".pdf\""
  }

  /** `Content-Disposition`: `inline` exactly when the `disposition`
      parameter is `inline`, otherwise `attachment`, naming `PO_{number}.pdf`. */
  function Disposition(param: Option<string>, poNumber: string): (h: string)
    ensures h == (if param == Some("inline") then "inline" else "attachment") + FileNameParam(poNumber)
  {
    var disposition := if param.Some? then param.value else "attachment";
    var mode := if disposition == "inline" then "inline" else "attachment";
    mode + FileNameParam(poNumber)
  }

  /** The number sits just before the closing `.pdf"`. */
  lemma {:induction false} FileNameParamEnds(poNumber: string)
    ensures var t := FileNameParam(poNumber);
            |t| == |poNumber| + 20 && t[|t| - |poNumber| - 5..|t| - 5] == poNumber
  {
    var t := FileNameParam(poNumber);
    var open := "; filename=\"PO_";
    assert |open| == 15;
    assert t == open + poNumber + ".pdf\"";
    assert t[15..15 + |poNumber|] == poNumber;
  }

  /** The header reads back its mode and the number. */
  lemma {:induction false} DispositionReadsBack(param: Option<string>, poNumber: string)
    ensures var h := Disposition(param, poNumber);
            (h[..6] == "inline" <==> param == Some("inline")) &&
            h[|h| - |poNumber| - 5..|h| - 5] == poNumber
  {
    var h := Disposition(param, poNumber);
    var t := FileNameParam(poNumber);
    FileNameParamEnds(poNumber);
    var mode := if param == Some("inline") then "inline" else "attachment";
    assert h == mode + t;
    assert h[..6] == mode[..6];
    if param != Some("inline") {
      assert mode[..6] == "attach";
      assert "attach"[0] != "inline"[0];
    }
    assert h[|h| - |poNumber| - 5..|h| - 5] == t[|t| - |poNumber| - 5..|t| - 5];
  }
}
