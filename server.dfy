/** The Node server: the decisions `/api/generate-po` takes while building
    the document description (flags, logo, header, stamps, vendor block,
    payment terms, number and file name) and the store of generated files
    behind `/download/:filename`. Reading files, base64 encoding,
    rendering and the floating-point item table are not part of this
    model; which asset files exist is an input. Form fields are text, or
    absent. */
module Server {
  import opened Common
  import opened Dates
  import opened Json

  // ---------------------------------------------------------------------
  // Form fields

  /** `req.body.x === 'true'`. */
  predicate Flag(v: Option<string>) {
    v == Some("true")
  }

  /** Strict equality with the text `true`: any other spelling, an empty
      field and an absent one are all off. */
  lemma {:induction false} FlagCases()
    ensures Flag(Some("true"))
    ensures !Flag(Some("True")) && !Flag(Some("1")) && !Flag(Some("on")) && !Flag(Some(""))
    ensures !Flag(None)
  {
    assert "True"[0] != "true"[0];
  }

  /** `req.body.x || fallback` on a text field: absent and empty both fall
      back. */
  function FieldOr(v: Option<string>, fallback: string): (r: string)
    ensures v.Some? && v.value != "" ==> r == v.value
    ensures v.None? || v.value == "" ==> r == fallback
  {
    if v.Some? && v.value != "" then v.value else fallback
  }

  // ---------------------------------------------------------------------
  // Logo and header

  datatype LogoSource = DefaultLogo | UploadedLogo

  datatype Logo = Logo(source: LogoSource, mime: string)

  /** `path.extname` (POSIX): the last segment's text from its last dot,
      or nothing when the segment has no dot, starts with its only
      leading dot, or is `..`. */
  function ExtName(path: string): (e: string)
    ensures e == [] || e[0] == '.'
  {
    SegmentExt(LastSegment(path))
  }

  /** The extension of one path segment. */
  function SegmentExt(seg: string): (e: string)
    ensures e == [] || e[0] == '.'
  {
    match LastIndex(seg, '.')
    case None => ""
    case Some(d) => if d == 0 || seg == ".." then "" else seg[d..]
  }

  /** The path after its last `/`, ignoring trailing slashes. */
  function LastSegment(path: string): (seg: string)
    ensures '/' !in seg
  {
    AfterLast(DropTrailing(path, '/'), '/')
  }

  function DropTrailing(s: string, c: char): (r: string)
    ensures r == [] || r[|r| - 1] != c
  {
    if s != [] && s[|s| - 1] == c then DropTrailing(s[..|s| - 1], c) else s
  }

  /** The position of the last `c` in `s`. */
  function LastIndex(s: string, c: char): (r: Option<nat>)
    ensures r.None? <==> c !in s
    ensures r.Some? ==> r.value < |s| && s[r.value] == c && c !in s[r.value + 1..]
  {
    if s == [] then None
    else if s[|s| - 1] == c then Some(|s| - 1)
    else
      var r := LastIndex(s[..|s| - 1], c);
      assert s == s[..|s| - 1] + [s[|s| - 1]];
      r
  }

  /** `path.extname(name).toLowerCase() === '.png' ? 'image/png' : 'image/jpeg'`. */
  function UploadMime(originalName: string): string {
    if Lower(ExtName(originalName)) == ".png" then "image/png" else "image/jpeg"
  }

  /** A segment ending in `.png` in any case, with something before it,
      has that extension. */
  lemma {:induction false} SegmentExtOfPng(seg: string)
    requires |seg| >= 5 && Lower(seg[|seg| - 4..]) == ".png"
    ensures SegmentExt(seg) == seg[|seg| - 4..]
  {
    var d := |seg| - 4;
    var tail := seg[d..];
    assert LowerChar(tail[0]) == '.';
    assert seg[d] == '.';
    assert '.' !in seg[d + 1..] by {
      forall i | d < i < |seg| ensures seg[i] != '.' {
        assert seg[i] == tail[i - d];
        assert LowerChar(tail[i - d]) != '.';
      }
    }
    assert LastIndex(seg, '.') == Some(d);
  }

  /** A segment whose extension lower-cases to `.png` ends in `.png` in
      any case, with something before it. */
  lemma {:induction false} PngOfSegmentExt(seg: string)
    requires Lower(SegmentExt(seg)) == ".png"
    ensures |seg| >= 5 && Lower(seg[|seg| - 4..]) == ".png"
  {
    var d := LastIndex(seg, '.').value;
    assert SegmentExt(seg) == seg[d..];
    assert |seg[d..]| == 4;
  }

  lemma {:induction false} UploadMimeOfExt(originalName: string)
    ensures UploadMime(originalName) == "image/png" <==>
            Lower(SegmentExt(LastSegment(originalName))) == ".png"
  {
  }

  /** A segment has the extension `.png`, in any case, exactly when it
      ends in `.png` with something before it. */
  lemma {:induction false} SegmentIsPng(seg: string)
    ensures Lower(SegmentExt(seg)) == ".png" <==> |seg| >= 5 && Lower(seg[|seg| - 4..]) == ".png"
  {
    if |seg| >= 5 && Lower(seg[|seg| - 4..]) == ".png" {
      SegmentExtOfPng(seg);
    }
    if Lower(SegmentExt(seg)) == ".png" {
      PngOfSegmentExt(seg);
    }
  }

  /** An upload is taken for PNG exactly when its name, after the last
      slash, has something before a final `.png` in any case; otherwise
      for JPEG. */
  lemma {:induction false} UploadMimeIsPng(originalName: string)
    ensures var seg := LastSegment(originalName);
            UploadMime(originalName) == "image/png" <==>
            |seg| >= 5 && Lower(seg[|seg| - 4..]) == ".png"
    ensures UploadMime(originalName) != "image/png" ==> UploadMime(originalName) == "image/jpeg"
  {
    UploadMimeOfExt(originalName);
    SegmentIsPng(LastSegment(originalName));
  }

  /** The logo the header shows: the default one when it is asked for and
      its file exists, otherwise the upload when one was sent and the
      default was not asked for, otherwise none. */
  function ChooseLogo(useDefaultLogo: bool, defaultExists: bool, upload: Option<string>): (r: Option<Logo>)
    ensures r == Some(Logo(DefaultLogo, "image/png")) <==> useDefaultLogo && defaultExists
    ensures r.Some? && r.value.source == UploadedLogo <==> !useDefaultLogo && upload.Some?
    ensures r.None? <==> (useDefaultLogo && !defaultExists) || (!useDefaultLogo && upload.None?)
  {
    if useDefaultLogo then
      if defaultExists then Some(Logo(DefaultLogo, "image/png")) else None
    else if upload.Some? then Some(Logo(UploadedLogo, UploadMime(upload.value)))
    else None
  }

  /** The left header column: the logo, or the company name as text. */
  datatype HeaderNode = LogoImage(logo: Logo) | HeaderText(text: string)

  const CompanyName: string := "CHEM-IS-TRY, INC."

  function Header(logo: Option<Logo>): (h: HeaderNode)
    ensures h.HeaderText? <==> logo.None?
    ensures h.HeaderText? ==> h.text == CompanyName
    ensures h.LogoImage? ==> h.logo == logo.value
  {
    if logo.Some? then LogoImage(logo.value) else HeaderText(CompanyName)
  }

  // ---------------------------------------------------------------------
  // Stamps

  datatype StampImage = OriginalStamp | CitStamp

  /** An image placed at an absolute position. */
  datatype Placement = Placement(image: StampImage, width: nat, height: nat, x: nat, y: nat)

  /** The stamp column: a stack of two images, one image, or `{}`. */
  datatype StampNode = Pair(first: Placement, second: Placement) | Single(only: Placement) | Empty

  function Images(n: StampNode): seq<Placement> {
    match n
    case Pair(a, b) => [a, b]
    case Single(p) => [p]
    case Empty => []
  }

  /** A stamp is loaded when it is selected and its file exists. */
  function StampLayout(originalLoaded: bool, citLoaded: bool): StampNode {
    if originalLoaded && citLoaded then
      Pair(Placement(OriginalStamp, 100, 50, 70, 535), Placement(CitStamp, 100, 50, 150, 525))
    else if originalLoaded then Single(Placement(OriginalStamp, 120, 60, 70, 530))
    else if citLoaded then Single(Placement(CitStamp, 120, 60, 70, 530))
    else Empty
  }

  /** Each loaded stamp is placed exactly once, nothing else is: two small
      offset images when both are loaded, one larger image otherwise. */
  lemma {:induction false} StampLayoutPlacesLoaded(originalLoaded: bool, citLoaded: bool)
    ensures var imgs := Images(StampLayout(originalLoaded, citLoaded));
            |imgs| == (if originalLoaded then 1 else 0) + (if citLoaded then 1 else 0) &&
            (exists i :: 0 <= i < |imgs| && imgs[i].image == OriginalStamp) == originalLoaded &&
            (exists i :: 0 <= i < |imgs| && imgs[i].image == CitStamp) == citLoaded
    ensures var imgs := Images(StampLayout(originalLoaded, citLoaded));
            forall i :: 0 <= i < |imgs| ==>
              if |imgs| == 2 then imgs[i].width == 100 && imgs[i].height == 50
              else imgs[i] == Placement(imgs[i].image, 120, 60, 70, 530)
    ensures var imgs := Images(StampLayout(originalLoaded, citLoaded));
            originalLoaded && citLoaded ==>
              imgs == [Placement(OriginalStamp, 100, 50, 70, 535), Placement(CitStamp, 100, 50, 150, 525)] &&
              imgs[0].x < imgs[1].x < imgs[0].x + imgs[0].width &&
              imgs[1].y < imgs[0].y < imgs[1].y + imgs[1].height
  {
    var imgs := Images(StampLayout(originalLoaded, citLoaded));
    if originalLoaded { assert imgs[0].image == OriginalStamp; }
    if citLoaded { assert imgs[|imgs| - 1].image == CitStamp; }
  }

  /** The stamps as the request selects them and the files allow. */
  function Stamps(useOriginalStamp: bool, useCitStamp: bool, originalExists: bool,
                  citExists: bool): (n: StampNode)
    ensures (exists i :: 0 <= i < |Images(n)| && Images(n)[i].image == OriginalStamp) <==>
              useOriginalStamp && originalExists
    ensures (exists i :: 0 <= i < |Images(n)| && Images(n)[i].image == CitStamp) <==>
              useCitStamp && citExists
  {
    StampLayoutPlacesLoaded(useOriginalStamp && originalExists, useCitStamp && citExists);
    StampLayout(useOriginalStamp && originalExists, useCitStamp && citExists)
  }

  // ---------------------------------------------------------------------
  // Vendor block and payment terms

  /** What pdfmake prints for a `text` value: a string as it is, a number
      or a boolean as `String` writes it, an array as its pieces run
      together, an object as its own `text`, or nothing. */
  function PdfText(j: Json): string
    decreases j
  {
    match j
    case JNull => ""
    case JBool(b) => if b then "true" else "false"
    case JNumber(n) => IntText(n)
    case JString(s) => s
    case JArray(items) => Join(seq(|items|, i requires 0 <= i < |items| => PdfText(items[i])), "")
    case JObject(members) =>
      match LastKeyIndex(members, "text")
      case Some(k) => PdfText(members[k].1)
      case None => ""
  }

  /** `{ text: value.key || fallback }` handed to pdfmake as it is. */
  function PdfTextOr(j: Json, key: string, fallback: string): (t: string)
    ensures Property(j, key).None? || !JsTruthy(Property(j, key).value) ==> t == fallback
    ensures var p := Property(j, key);
            p.Some? && p.value.JString? && p.value.s != "" ==> t == p.value.s
  {
    match Property(j, key)
    case None => fallback
    case Some(v) => if JsTruthy(v) then PdfText(v) else fallback
  }

  /** A raw array or object prints differently from the text a template
      literal makes of it: `["A","B"]` gives `AB`, not `A,B`, and
      `{"text":"X"}` gives `X`, not `[object Object]`. */
  lemma {:induction false} PdfTextOfPieces()
    ensures PdfText(JArray([JString("A"), JString("B")])) == "AB"
    ensures JsText(JArray([JString("A"), JString("B")])) == "A,B"
    ensures PdfText(JObject([("text", JString("X"))])) == "X"
    ensures JsText(JObject([("text", JString("X"))])) == "[object Object]"
  {
    var items := [JString("A"), JString("B")];
    var pieces := seq(|items|, i requires 0 <= i < |items| => PdfText(items[i]));
    assert pieces == ["A", "B"];
    assert Join(pieces, "") == "A" + "" + Join(pieces[1..], "");
    assert pieces[1..] == ["B"];
    var parts := seq(|items|, i requires 0 <= i < |items| =>
                       if items[i].JNull? then "" else JsText(items[i]));
    assert parts == ["A", "B"];
    assert Join(parts, ",") == "A" + "," + Join(parts[1..], ",");
    assert parts[1..] == ["B"];
    assert LastKeyIndex([("text", JString("X"))], "text") == Some(0);
  }

  /** The four vendor lines: name, address, `{city}, {state} {zip}`,
      country, each part `|| ''`. Name, address and country go to pdfmake
      as they are; the city line is a template literal. `vendor` is
      `safeJsonParse(req.body.vendor, {})`; a vendor that parses to `null`
      makes the property reads throw. */
  function VendorLines(vendor: Json): (r: Option<seq<string>>)
    ensures r.None? <==> vendor.JNull?
    ensures r.Some? ==> |r.value| == 4
    ensures r.Some? ==> r.value[0] == PdfTextOr(vendor, "name", "") && r.value[1] == PdfTextOr(vendor, "address", "")
    ensures r.Some? ==> r.value[2] == TextOr(vendor, "city", "") + ", " + TextOr(vendor, "state", "") + " "
                                      + TextOr(vendor, "zip", "")
    ensures r.Some? ==> r.value[3] == PdfTextOr(vendor, "country", "")
  {
    if vendor.JNull? then None
    else Some([PdfTextOr(vendor, "name", ""), PdfTextOr(vendor, "address", ""),
               TextOr(vendor, "city", "") + ", " + TextOr(vendor, "state", "") + " "
               + TextOr(vendor, "zip", ""),
               PdfTextOr(vendor, "country", "")])
  }

  /** Each field defaults to the empty text on its own: a missing or falsy
      member leaves its slot blank, a non-empty string fills it, whatever
      the other members are. */
  lemma {:induction false} VendorFieldDefaults(vendor: Json, key: string)
    requires !vendor.JNull?
    requires key in {"name", "address", "city", "state", "zip", "country"}
    ensures Property(vendor, key).None? || !JsTruthy(Property(vendor, key).value) ==>
              TextOr(vendor, key, "") == "" && PdfTextOr(vendor, key, "") == ""
    ensures var p := Property(vendor, key);
            p.Some? && p.value.JString? && p.value.s != "" ==>
              TextOr(vendor, key, "") == p.value.s && PdfTextOr(vendor, key, "") == p.value.s
    ensures var lines := VendorLines(vendor).value;
            (key == "name" ==> lines[0] == PdfTextOr(vendor, key, "")) &&
            (key == "address" ==> lines[1] == PdfTextOr(vendor, key, "")) &&
            (key == "country" ==> lines[3] == PdfTextOr(vendor, key, ""))
  {
  }

  /** With city, state and zip all missing or falsy, the third line is
      `,  `. */
  lemma {:induction false} VendorCityLineBlank(vendor: Json)
    requires !vendor.JNull?
    requires forall k :: k in {"city", "state", "zip"} ==>
               Property(vendor, k).None? || !JsTruthy(Property(vendor, k).value)
    ensures VendorLines(vendor).value[2] == ",  "
  {
    assert TextOr(vendor, "city", "") == "";
    assert TextOr(vendor, "state", "") == "";
    assert TextOr(vendor, "zip", "") == "";
    assert "" + ", " + "" + " " + "" == ",  ";
  }

  /** A vendor field that failed to parse gives the empty block. */
  lemma {:induction false} MalformedVendorIsBlank()
    ensures VendorLines(SafeJsonParse(Malformed, JObject([]))) == Some(["", "", ",  ", ""])
  {
    var v := JObject([]);
    assert Property(v, "name") == None && Property(v, "address") == None;
    assert Property(v, "city") == None && Property(v, "state") == None;
    assert Property(v, "zip") == None && Property(v, "country") == None;
    assert "" + ", " + "" + " " + "" == ",  ";
  }

  /** Text-valued fields are printed as given. */
  lemma {:induction false} VendorLinesOfText(name: string, address: string, city: string, state: string,
                          zip: string, country: string)
    requires name != "" && address != "" && city != "" && state != "" && zip != "" && country != ""
    ensures var v := JObject([("name", JString(name)), ("address", JString(address)),
                              ("city", JString(city)), ("state", JString(state)),
                              ("zip", JString(zip)), ("country", JString(country))]);
            VendorLines(v) == Some([name, address, city + ", " + state + " " + zip, country])
  {
    var m := [("name", JString(name)), ("address", JString(address)),
              ("city", JString(city)), ("state", JString(state)),
              ("zip", JString(zip)), ("country", JString(country))];
    VendorKeysDistinct(name, address, city, state, zip, country);
    TextOfMember(m, 0, name);
    TextOfMember(m, 1, address);
    TextOfMember(m, 2, city);
    TextOfMember(m, 3, state);
    TextOfMember(m, 4, zip);
    TextOfMember(m, 5, country);
  }

  /** A non-empty text member, with distinct keys, is read as itself. */
  lemma {:induction false} TextOfMember(members: seq<(string, Json)>, k: nat, t: string)
    requires DistinctKeys(members) && k < |members| && members[k].1 == JString(t) && t != ""
    ensures TextOr(JObject(members), members[k].0, "") == t
    ensures PdfTextOr(JObject(members), members[k].0, "") == t
  {
    LookupDistinct(members, k);
  }

  lemma {:induction false} VendorKeysDistinct(name: string, address: string, city: string, state: string,
                           zip: string, country: string)
    ensures DistinctKeys([("name", JString(name)), ("address", JString(address)),
                          ("city", JString(city)), ("state", JString(state)),
                          ("zip", JString(zip)), ("country", JString(country))])
  {
  }

  predicate DistinctKeys(members: seq<(string, Json)>) {
    forall i, j :: 0 <= i < j < |members| ==> members[i].0 != members[j].0
  }

  /** With distinct keys, each member is found under its own key. */
  lemma {:induction false} LookupDistinct(members: seq<(string, Json)>, k: nat)
    requires DistinctKeys(members) && k < |members|
    ensures LookupMember(members, members[k].0) == Some(members[k].1)
    decreases |members|
  {
    if k < |members| - 1 {
      var init := members[..|members| - 1];
      assert init[k] == members[k];
      assert DistinctKeys(init) by {
        forall i, j | 0 <= i < j < |init| ensures init[i].0 != init[j].0 {
          assert init[i] == members[i] && init[j] == members[j];
        }
      }
      LookupDistinct(init, k);
    }
  }

  const DeliveredPrices: string := "All prices are delivered prices"

  function PaymentLine(paymentDays: Option<string>): string {
    "Payment : Net " + FieldOr(paymentDays, "30") + " days"
  }

  /** `[... ? {...} : null, ... ? {...} : null].filter(Boolean)`. */
  function Present(xs: seq<Option<string>>): (r: seq<string>)
    ensures |r| <= |xs|
    ensures forall s :: s in r <==> Some(s) in xs
  {
    if xs == [] then []
    else
      var rest := Present(xs[1..]);
      assert xs == [xs[0]] + xs[1..];
      if xs[0].Some? then [xs[0].value] + rest else rest
  }

  function PaymentStack(line1: bool, line2: bool, paymentDays: Option<string>): seq<string> {
    Present([if line1 then Some(PaymentLine(paymentDays)) else None,
             if line2 then Some(DeliveredPrices) else None])
  }

  /** Each line is there exactly when its flag is set, line 1 first, and
      nothing else is. */
  lemma {:induction false} PaymentStackLines(line1: bool, line2: bool, paymentDays: Option<string>)
    ensures var st := PaymentStack(line1, line2, paymentDays);
            (PaymentLine(paymentDays) in st <==> line1) &&
            (DeliveredPrices in st <==> line2) &&
            |st| == (if line1 then 1 else 0) + (if line2 then 1 else 0) &&
            (line1 && line2 ==> st == [PaymentLine(paymentDays), DeliveredPrices])
  {
    var xs := [if line1 then Some(PaymentLine(paymentDays)) else None,
               if line2 then Some(DeliveredPrices) else None];
    assert xs[1..][1..] == [];
    assert Present(xs[1..][1..]) == [];
    assert |Present(xs[1..])| == (if line2 then 1 else 0);
    assert PaymentLine(paymentDays) != DeliveredPrices by {
      assert PaymentLine(paymentDays)[0] == 'P';
    }
  }

  // ---------------------------------------------------------------------
  // Number, file name, and the whole document

  /** `CIT{MM}{DD}{YY}-{poSuffix || '1'}` from the date's fields. */
  function ServerPoNumber(d: Date, poSuffix: Option<string>): string {
    PoNumber(JsDatePart(d), FieldOr(poSuffix, "1"))
  }

  /** `PO_{poNumber}_{Date.now()}.pdf`. */
  function PoFilename(poNumber: string, now: nat): string {
    "PO_" + poNumber + "_" + NatToString(now) + ".pdf"
  }

  /** `INVOICE_{invoiceNumber || last six digits of now1}_{now2}.pdf`: the
      two times are two separate reads of the clock. */
  function InvoiceFilename(invoiceNumber: Option<string>, now1: nat, now2: nat): string {
    "INVOICE_" + FieldOr(invoiceNumber, LastChars(NatToString(now1), 6)) + "_"
    + NatToString(now2) + ".pdf"
  }

  /** The file name reads back the number and the time. */
  lemma {:induction false} PoFilenameReadsBack(poNumber: string, now: nat)
    ensures var f := PoFilename(poNumber, now);
            var tail := "_" + NatToString(now) + ".pdf";
            |f| == 3 + |poNumber| + |tail| &&
            f[..3] == "PO_" && f[3..3 + |poNumber|] == poNumber && f[3 + |poNumber|..] == tail
  {
  }

  /** Without an invoice number, the name carries six digits of the time
      (all of them for a shorter time). */
  lemma {:induction false} InvoiceFilenameFallback(now1: nat, now2: nat)
    ensures var key := LastChars(NatToString(now1), 6);
            InvoiceFilename(None, now1, now2) == "INVOICE_" + key + "_" + NatToString(now2) + ".pdf" &&
            1 <= |key| <= 6 && AllDigits(key)
  {
    NatToStringShape(now1);
    LastCharsDigits(NatToString(now1), 6);
  }

  lemma {:induction false} LastCharsDigits(s: string, k: nat)
    requires AllDigits(s)
    ensures AllDigits(LastChars(s, k))
  {
    var key := LastChars(s, k);
    forall i | 0 <= i < |key| ensures IsDigit(key[i]) {
      assert key[i] == s[|s| - |key| + i];
    }
  }

  /** The form fields `/api/generate-po` reads. `vendor` and `items` are
      the outcome of parsing those fields (an absent field does not parse);
      `upload` is the uploaded logo's original name. */
  datatype PoRequest = PoRequest(
    documentType: Option<string>,
    includePaymentTermsLine1: Option<string>,
    includePaymentTermsLine2: Option<string>,
    paymentDays: Option<string>,
    useOriginalStamp: Option<string>,
    useCitStamp: Option<string>,
    useDefaultLogo: Option<string>,
    poSuffix: Option<string>,
    activityDescription: Option<string>,
    vendor: JsonParse,
    items: JsonParse,
    upload: Option<string>)

  /** Which asset files exist. */
  datatype Assets = Assets(defaultLogo: bool, originalStamp: bool, citStamp: bool)

  /** The decisions the document definition records. */
  datatype PoDocument = PoDocument(
    header: HeaderNode,
    poNumberLine: string,
    dateLine: string,
    stamps: StampNode,
    vendor: seq<string>,
    activity: string,
    paymentTerms: seq<string>)

  datatype Generated = Generated(document: PoDocument, filename: string) | Failed

  /** The items can be totalled: an array without `null` entries (reading
      a property of `null` throws). */
  predicate ItemsReadable(items: Json) {
    items.JArray? && forall i :: 0 <= i < |items.items| ==> !items.items[i].JNull?
  }

  /** A purchase-order request on date `d` at time `now`. A request for any
      other document type, or one whose vendor is `null` or whose items
      cannot be read, fails. */
  function GeneratePo(req: PoRequest, d: Date, now: nat, assets: Assets): (g: Generated)
    ensures g.Generated? <==> FieldOr(req.documentType, "po") == "po" &&
                              !SafeJsonParse(req.vendor, JObject([])).JNull? &&
                              ItemsReadable(SafeJsonParse(req.items, JArray([])))
  {
    var vendor := SafeJsonParse(req.vendor, JObject([]));
    var items := SafeJsonParse(req.items, JArray([]));
    if FieldOr(req.documentType, "po") != "po" || vendor.JNull? || !ItemsReadable(items) then Failed
    else
      var poNumber := ServerPoNumber(d, req.poSuffix);
      var doc := PoDocument(
        Header(ChooseLogo(Flag(req.useDefaultLogo), assets.defaultLogo, req.upload)),
        "PO NO. " + poNumber,
        "DATE: " + SlashDate(d),
        Stamps(Flag(req.useOriginalStamp), Flag(req.useCitStamp), assets.originalStamp,
               assets.citStamp),
        VendorLines(vendor).value,
        FieldOr(req.activityDescription, ""),
        PaymentStack(Flag(req.includePaymentTermsLine1), Flag(req.includePaymentTermsLine2),
                     req.paymentDays));
      Generated(doc, PoFilename(ServerPoNumber(d, req.poSuffix), now))
  }

  /** The file name carries the number the document shows, and for a valid
      date that number is the browser's and carries the date's fields. */
  lemma {:induction false} GeneratedNamesAgree(req: PoRequest, d: Date, now: nat, assets: Assets)
    requires ValidDate(d)
    requires GeneratePo(req, d, now, assets).Generated?
    ensures var g := GeneratePo(req, d, now, assets);
            var n := g.document.poNumberLine[7..];
            g.document.poNumberLine == "PO NO. " + n &&
            g.filename == PoFilename(n, now) &&
            ParsePoNumber(n) == Some(PoFields(d.month, d.day, d.year % 100,
                                              FieldOr(req.poSuffix, "1")))
  {
    PoNumberRoundTrip(d, FieldOr(req.poSuffix, "1"));
    var g := GeneratePo(req, d, now, assets);
    assert g.document.poNumberLine[7..] == ServerPoNumber(d, req.poSuffix);
  }

  // ---------------------------------------------------------------------
  // Download store

  datatype DownloadResponse = Served(name: string, bytes: seq<bv8>) | NotFound(status: nat, body: string)

  /** The `temp` directory: generated files by name. */
  class DownloadStore {
    var files: map<string, seq<bv8>>

    constructor ()
      ensures files == map[]
    {
      files := map[];
    }

    /** Writing a generated document; the response names its download
        URL. */
    method Publish(filename: string, bytes: seq<bv8>) returns (url: string)
      modifies this
      ensures files == old(files)[filename := bytes]
      ensures url == "/download/" + filename
    {
      files := files[filename := bytes];
      url := "/download/" + filename;
    }

    /** `GET /download/:filename`: the file when it exists, otherwise 404. */
    method Download(filename: string) returns (r: DownloadResponse)
      ensures filename in files ==> r == Served(filename, files[filename])
      ensures filename !in files ==> r == NotFound(404, "File not found")
    {
      if filename in files {
        r := Served(filename, files[filename]);
      } else {
        r := NotFound(404, "File not found");
      }
    }

    /** The deletion scheduled after a download. */
    method Evict(filename: string)
      modifies this
      ensures files == old(files) - {filename}
    {
      files := files - {filename};
    }
  }

  /** A generated file's life in the store: written by `POST
      /generate-po`, served by `GET /download/:filename`, then deleted. It
      is served with its bytes at first and gets 404 after the deletion. A
      file under another name is served as before, and the store ends as it
      began without `filename`. */
  method PublishServeEvict(store: DownloadStore, filename: string, bytes: seq<bv8>, other: string)
      returns (first: DownloadResponse, second: DownloadResponse, elsewhere: DownloadResponse)
    requires other != filename
    modifies store
    ensures first == Served(filename, bytes)
    ensures second == NotFound(404, "File not found")
    ensures other in old(store.files) ==> elsewhere == Served(other, old(store.files)[other])
    ensures other !in old(store.files) ==> elsewhere == NotFound(404, "File not found")
    ensures store.files == old(store.files) - {filename}
  {
    var url := store.Publish(filename, bytes);
    first := store.Download(filename);
    elsewhere := store.Download(other);
    store.Evict(filename);
    second := store.Download(filename);
  }
}
