/**
 * The admin's menu-update form (SmartHotel/src/Screens/UpdateMenu.js): the
 * per-field checks, which run as else-if chains, the collection of every
 * field's error before anything is sent, the menu-id lock after a fetch and
 * the reset.
 */
module UpdateMenu {
  import opened Common

  datatype Field = MenuIdField | NameField | DescriptionField | PriceField | CategoryField | ImageUrlField

  /** Why a field was refused (each stands for one alert line of the screen). */
  datatype Issue = Empty | TooShort | BadFormat | NotPositive

  datatype FormError = FormError(field: Field, issue: Issue)

  /** The text inputs of the screen and whether an item has been fetched. */
  datatype Form = Form(menuId: string, name: string, description: string, price: string,
                       category: string, imageUrl: string, fetched: bool)

  const EmptyForm := Form("", "", "", "", "", "", false)

  // ---------------------------------------------------------------------------
  // Character classes of the patterns

  /** `[A-Za-z\s]` */
  predicate IsNameChar(c: char) {
    IsAsciiLetter(c) || IsJsSpace(c)
  }

  /** `[A-Za-z\s,.!]` */
  predicate IsDescriptionChar(c: char) {
    IsAsciiLetter(c) || IsJsSpace(c) || c == ',' || c == '.' || c == '!'
  }

  predicate AllOf(s: string, p: char -> bool) {
    forall k :: 0 <= k < |s| ==> p(s[k])
  }

  // ---------------------------------------------------------------------------
  // Price: /^\d+(\.\d{1,2})?$/

  /** The declarative reading of the price pattern: digits, optionally a dot
      and one or two more digits. */
  predicate PriceShape(t: string) {
    (|t| > 0 && AllDigits(t))
    || exists d | 0 < d < |t| :: t[d] == '.' && AllDigits(t[..d]) && AllDigits(t[d + 1..]) && 1 <= |t| - d - 1 <= 2
  }

  /** The pattern as a left-to-right scan: the run of digits, then either the
      end or a dot followed by one or two digits. */
  predicate ScanPrice(t: string) {
    var n := |DigitPrefix(t)|;
    n > 0 && (n == |t| || (t[n] == '.' && 1 <= |t| - n - 1 <= 2 && AllDigits(t[n + 1..])))
  }

  /** The price pattern, decided by the scan. */
  function MatchesPrice(t: string): (b: bool)
    ensures b <==> PriceShape(t)
  {
    PriceScanIff(t);
    ScanPrice(t)
  }

  lemma PriceScanIff(t: string)
    ensures ScanPrice(t) <==> PriceShape(t)
  {
    if ScanPrice(t) {
      ScanGivesShape(t);
    }
    if PriceShape(t) {
      ShapeGivesScan(t);
    }
  }

  /** Whatever the declarative reading accepts, the scan accepts: the dot is
      the first non-digit. */
  lemma ShapeGivesScan(t: string)
    requires PriceShape(t)
    ensures ScanPrice(t)
  {
    var d := DigitPrefix(t);
    var n := |d|;
    if |t| > 0 && AllDigits(t) {
      assert n == |t|;
    } else {
      var e :| 0 < e < |t| && t[e] == '.' && AllDigits(t[..e]) && AllDigits(t[e + 1..]) && 1 <= |t| - e - 1 <= 2;
      forall k | 0 <= k < e ensures IsDigit(t[k]) {
        assert t[..e][k] == t[k];
      }
      assert n >= e;
      assert !IsDigit(t[e]);
      assert n == e;
    }
  }

  /** Whatever the scan accepts, the declarative reading accepts. */
  lemma ScanGivesShape(t: string)
    requires ScanPrice(t)
    ensures PriceShape(t)
  {
    var d := DigitPrefix(t);
    var n := |d|;
    if n == |t| {
      assert t == d;
    } else {
      assert t[..n] == d;
    }
  }

  /** The value of a price that matches the pattern, in hundredths. */
  function PriceCents(t: string): (c: nat)
    requires PriceShape(t)
  {
    var n := |DigitPrefix(t)|;
    ShapeGivesScan(t);
    if n == |t| then DigitsValue(t) * 100
    else
      var frac := t[n + 1..];
      DigitsValue(t[..n]) * 100 + (if |frac| == 1 then DigitsValue(frac) * 10 else DigitsValue(frac))
  }

  /** A price matching the pattern is positive exactly when one of its digits
      is not '0'. */
  lemma PricePositiveIff(t: string)
    requires PriceShape(t)
    ensures PriceCents(t) > 0 <==> exists k | 0 <= k < |t| :: IsDigit(t[k]) && t[k] != '0'
  {
    var n := |DigitPrefix(t)|;
    ShapeGivesScan(t);
    if n == |t| {
      DigitsValueZeroIff(t);
    } else {
      FractionPositiveIff(t, n);
    }
  }

  /** The case with a dot: positive exactly when a digit on either side of
      the dot is not '0'. */
  lemma FractionPositiveIff(t: string, n: int)
    requires 0 < n < |t| && t[n] == '.' && AllDigits(t[..n]) && AllDigits(t[n + 1..])
    ensures DigitsValue(t[..n]) * 100 + (if |t| - n - 1 == 1 then DigitsValue(t[n + 1..]) * 10 else DigitsValue(t[n + 1..])) > 0
      <==> exists k | 0 <= k < |t| :: IsDigit(t[k]) && t[k] != '0'
  {
    var whole, frac := t[..n], t[n + 1..];
    DigitsValueZeroIff(whole);
    DigitsValueZeroIff(frac);
    if exists k | 0 <= k < |t| :: IsDigit(t[k]) && t[k] != '0' {
      var k :| 0 <= k < |t| && IsDigit(t[k]) && t[k] != '0';
      if k < n {
        assert whole[k] == t[k];
      } else {
        assert frac[k - n - 1] == t[k];
      }
    } else {
      forall k | 0 <= k < |frac| ensures frac[k] == '0' {
        assert frac[k] == t[n + 1 + k];
      }
      forall k | 0 <= k < n ensures whole[k] == '0' {
        assert whole[k] == t[k];
      }
    }
  }

  // ---------------------------------------------------------------------------
  // Image URL: /^(https?:\/\/[^\s$.?#].[^\s]*)$/

  /** What follows the scheme: a first character that is not white space nor
      one of `$ . ? #`, a second that is not a line terminator, then no white
      space. */
  predicate UrlRest(r: string) {
    |r| >= 2
    && !IsJsSpace(r[0]) && r[0] != '$' && r[0] != '.' && r[0] != '?' && r[0] != '#'
    && !IsJsLineTerminator(r[1])
    && forall k :: 2 <= k < |r| ==> !IsJsSpace(r[k])
  }

  predicate MatchesUrl(t: string) {
    (StartsWith(t, "http://") && UrlRest(t[7..])) || (StartsWith(t, "https://") && UrlRest(t[8..]))
  }

  // ---------------------------------------------------------------------------
  // The field checks

  /** Menu id: blank, then not all digits, then `parseInt` not above 0. */
  function CheckMenuId(s: string): (e: Option<Issue>)
    ensures e == Some(NotPositive) ==> AllDigits(JsTrim(s)) && forall k :: 0 <= k < |JsTrim(s)| ==> JsTrim(s)[k] == '0'
  {
    var t := JsTrim(s);
    if |t| == 0 then Some(Empty)
    else if !AllDigits(t) then Some(BadFormat)
    else
      DigitsValueZeroIff(t);
      if DigitsValue(t) <= 0 then Some(NotPositive) else None
  }

  /** Name and category: blank, shorter than 3, then not only letters and spaces. */
  function CheckWords(s: string): Option<Issue> {
    var t := JsTrim(s);
    if |t| == 0 then Some(Empty)
    else if |t| < 3 then Some(TooShort)
    else if !AllOf(t, IsNameChar) then Some(BadFormat)
    else None
  }

  /** Description: blank, shorter than 10, then not only letters, spaces and `, . !`. */
  function CheckDescription(s: string): Option<Issue> {
    var t := JsTrim(s);
    if |t| == 0 then Some(Empty)
    else if |t| < 10 then Some(TooShort)
    else if !AllOf(t, IsDescriptionChar) then Some(BadFormat)
    else None
  }

  /** Price: blank, then not matching the pattern, then not above 0. */
  function CheckPrice(s: string): Option<Issue> {
    var t := JsTrim(s);
    if |t| == 0 then Some(Empty)
    else if !MatchesPrice(t) then Some(BadFormat)
    else if PriceCents(t) <= 0 then Some(NotPositive)
    else None
  }

  /** Image URL: blank, then not matching the pattern. */
  function CheckImageUrl(s: string): Option<Issue> {
    var t := JsTrim(s);
    if |t| == 0 then Some(Empty)
    else if !MatchesUrl(t) then Some(BadFormat)
    else None
  }

  function ErrorOf(f: Field, e: Option<Issue>): seq<FormError> {
    if e.Some? then [FormError(f, e.value)] else []
  }

  /** Each field with the outcome of its chain, in the order of the form. */
  function Assemble(menuId: Option<Issue>, name: Option<Issue>, description: Option<Issue>,
                    price: Option<Issue>, category: Option<Issue>, imageUrl: Option<Issue>)
    : (checks: seq<(Field, Option<Issue>)>)
    ensures |checks| == 6
  {
    [(MenuIdField, menuId), (NameField, name), (DescriptionField, description),
     (PriceField, price), (CategoryField, category), (ImageUrlField, imageUrl)]
  }

  function Checks(form: Form): seq<(Field, Option<Issue>)> {
    Assemble(CheckMenuId(form.menuId), CheckWords(form.name), CheckDescription(form.description),
             CheckPrice(form.price), CheckWords(form.category), CheckImageUrl(form.imageUrl))
  }

  /** Every failing check contributes its error; none stops the others. */
  function Collect(checks: seq<(Field, Option<Issue>)>): seq<FormError> {
    if |checks| == 0 then [] else ErrorOf(checks[0].0, checks[0].1) + Collect(checks[1..])
  }

  /** `validateForm`: the errors of all fields, in the order of the form. */
  function ValidateForm(form: Form): seq<FormError> {
    Collect(Checks(form))
  }

  /** No error is collected exactly when every check passed. */
  lemma {:induction false} CollectEmptyIff(checks: seq<(Field, Option<Issue>)>)
    ensures Collect(checks) == [] <==> forall k :: 0 <= k < |checks| ==> checks[k].1.None?
  {
    if |checks| > 0 {
      CollectEmptyIff(checks[1..]);
      assert forall k :: 1 <= k < |checks| ==> checks[k] == checks[1..][k - 1];
    }
  }

  /** The collected errors are exactly the failing checks. */
  lemma {:induction false} CollectMembers(checks: seq<(Field, Option<Issue>)>)
    ensures forall e :: e in Collect(checks) <==> (e.field, Some(e.issue)) in checks
  {
    if |checks| > 0 {
      CollectMembers(checks[1..]);
      assert checks == [checks[0]] + checks[1..];
    }
  }

  function FieldIndex(f: Field): nat {
    match f
    case MenuIdField => 0
    case NameField => 1
    case DescriptionField => 2
    case PriceField => 3
    case CategoryField => 4
    case ImageUrlField => 5
  }

  predicate FieldsIncrease(checks: seq<(Field, Option<Issue>)>) {
    forall i, j :: 0 <= i < j < |checks| ==> FieldIndex(checks[i].0) < FieldIndex(checks[j].0)
  }

  predicate ErrorsIncrease(errs: seq<FormError>) {
    forall i, j :: 0 <= i < j < |errs| ==> FieldIndex(errs[i].field) < FieldIndex(errs[j].field)
  }

  /** Checks in field order give errors in field order, so at most one per field. */
  lemma {:induction false} CollectOrdered(checks: seq<(Field, Option<Issue>)>)
    requires FieldsIncrease(checks)
    ensures ErrorsIncrease(Collect(checks))
    ensures forall e :: e in Collect(checks) ==> FieldIndex(e.field) >= (if |checks| == 0 then 0 else FieldIndex(checks[0].0))
  {
    if |checks| > 0 {
      var rest := checks[1..];
      assert FieldsIncrease(rest) by {
        forall i, j | 0 <= i < j < |rest| ensures FieldIndex(rest[i].0) < FieldIndex(rest[j].0) {
          assert rest[i] == checks[i + 1] && rest[j] == checks[j + 1];
        }
      }
      CollectOrdered(rest);
      CollectMembers(rest);
      forall e | e in Collect(rest) ensures FieldIndex(e.field) > FieldIndex(checks[0].0) {
        var k :| 0 <= k < |rest| && rest[k] == (e.field, Some(e.issue));
        assert rest[k] == checks[k + 1];
      }
      var head := ErrorOf(checks[0].0, checks[0].1);
      var all := head + Collect(rest);
      forall i, j | 0 <= i < j < |all| ensures FieldIndex(all[i].field) < FieldIndex(all[j].field) {
        if i < |head| {
          assert all[j] == Collect(rest)[j - |head|];
          assert all[j] in Collect(rest);
        } else {
          assert all[i] == Collect(rest)[i - |head|] && all[j] == Collect(rest)[j - |head|];
        }
      }
    }
  }

  // ---------------------------------------------------------------------------
  // What each field accepts, stated without the chains

  predicate MenuIdAcceptable(s: string) {
    var t := JsTrim(s);
    |t| > 0 && AllDigits(t) && exists k | 0 <= k < |t| :: t[k] != '0'
  }

  predicate WordsAcceptable(s: string) {
    var t := JsTrim(s);
    |t| >= 3 && AllOf(t, IsNameChar)
  }

  predicate DescriptionAcceptable(s: string) {
    var t := JsTrim(s);
    |t| >= 10 && AllOf(t, IsDescriptionChar)
  }

  predicate PriceAcceptable(s: string) {
    var t := JsTrim(s);
    PriceShape(t) && exists k | 0 <= k < |t| :: IsDigit(t[k]) && t[k] != '0'
  }

  predicate UrlAcceptable(s: string) {
    MatchesUrl(JsTrim(s))
  }

  /** The menu-id chain passes exactly the digit strings that are not all zeros. */
  lemma MenuIdCheckAgrees(s: string)
    ensures CheckMenuId(s).None? <==> MenuIdAcceptable(s)
  {
    var t := JsTrim(s);
    if |t| > 0 && AllDigits(t) {
      DigitsValueZeroIff(t);
    }
  }

  lemma WordsCheckAgrees(s: string)
    ensures CheckWords(s).None? <==> WordsAcceptable(s)
  {
  }

  lemma DescriptionCheckAgrees(s: string)
    ensures CheckDescription(s).None? <==> DescriptionAcceptable(s)
  {
  }

  lemma UrlCheckAgrees(s: string)
    ensures CheckImageUrl(s).None? <==> UrlAcceptable(s)
  {
  }

  /** The price chain passes exactly the pattern matches with a nonzero digit. */
  lemma PriceCheckAgrees(s: string)
    ensures CheckPrice(s).None? <==> PriceAcceptable(s)
  {
    var t := JsTrim(s);
    if |t| > 0 && PriceShape(t) {
      PricePositiveIff(t);
    }
  }

  /** Six checks give no error exactly when all six passed; the errors come in
      the order of the form, one per failing field. */
  lemma AssembleCollect(a: Option<Issue>, b: Option<Issue>, c: Option<Issue>,
                        d: Option<Issue>, e: Option<Issue>, f: Option<Issue>)
    ensures Collect(Assemble(a, b, c, d, e, f)) == [] <==>
      a.None? && b.None? && c.None? && d.None? && e.None? && f.None?
    ensures ErrorsIncrease(Collect(Assemble(a, b, c, d, e, f)))
    ensures forall x :: x in Collect(Assemble(a, b, c, d, e, f)) <==> (x.field, Some(x.issue)) in Assemble(a, b, c, d, e, f)
  {
    var checks := Assemble(a, b, c, d, e, f);
    assert checks[0].1 == a && checks[1].1 == b && checks[2].1 == c;
    assert checks[3].1 == d && checks[4].1 == e && checks[5].1 == f;
    CollectEmptyIff(checks);
    assert FieldsIncrease(checks) by {
      forall i, j | 0 <= i < j < |checks| ensures FieldIndex(checks[i].0) < FieldIndex(checks[j].0) {
        assert forall k :: 0 <= k < 6 ==> FieldIndex(checks[k].0) == k;
      }
    }
    CollectOrdered(checks);
    CollectMembers(checks);
  }

  /** Errors are collected, not fail-fast: the form passes exactly when every
      field is acceptable. */
  lemma ValidIffAllAcceptable(form: Form)
    ensures ValidateForm(form) == [] <==>
      MenuIdAcceptable(form.menuId) && WordsAcceptable(form.name)
      && DescriptionAcceptable(form.description) && PriceAcceptable(form.price)
      && WordsAcceptable(form.category) && UrlAcceptable(form.imageUrl)
  {
    MenuIdCheckAgrees(form.menuId);
    WordsCheckAgrees(form.name);
    DescriptionCheckAgrees(form.description);
    PriceCheckAgrees(form.price);
    WordsCheckAgrees(form.category);
    UrlCheckAgrees(form.imageUrl);
    AssembleCollect(CheckMenuId(form.menuId), CheckWords(form.name), CheckDescription(form.description),
                    CheckPrice(form.price), CheckWords(form.category), CheckImageUrl(form.imageUrl));
  }

  /** Each field that fails contributes exactly one error naming it, and the
      errors come in the order of the form. */
  lemma ErrorsPerField(form: Form)
    ensures ErrorsIncrease(ValidateForm(form))
    ensures forall e :: e in ValidateForm(form) <==> (e.field, Some(e.issue)) in Checks(form)
  {
    AssembleCollect(CheckMenuId(form.menuId), CheckWords(form.name), CheckDescription(form.description),
                    CheckPrice(form.price), CheckWords(form.category), CheckImageUrl(form.imageUrl));
  }

  /** The price boundaries: "10.99" and "10.5" pass, "10.999" and "-5" do not
      match the pattern, "0" and "0.00" match it but are not positive. */
  lemma PriceBoundaries()
    ensures CheckPrice("10.99").None? && CheckPrice("10.5").None?
    ensures CheckPrice("10.999") == Some(BadFormat) && CheckPrice("-5") == Some(BadFormat)
    ensures CheckPrice("0") == Some(NotPositive) && CheckPrice("0.00") == Some(NotPositive)
  {
    Price1099();
    Price105();
    PriceZero();
    PriceZeroCents();
    PriceRejected("10.999");
    PriceRejected("-5");
  }

  /** A text that is digits, a dot and one or two digits matches, and its
      value is read off the two runs. */
  lemma PriceCentsSplit(t: string, n: int)
    requires 0 < n < |t| && t[n] == '.' && AllDigits(t[..n]) && AllDigits(t[n + 1..]) && 1 <= |t| - n - 1 <= 2
    ensures PriceShape(t)
    ensures PriceCents(t) == DigitsValue(t[..n]) * 100
      + (if |t| - n - 1 == 1 then DigitsValue(t[n + 1..]) * 10 else DigitsValue(t[n + 1..]))
  {
    assert |DigitPrefix(t)| == n;
  }

  /** Digits, a dot and one or two digits match, with the value they spell. */
  lemma PriceOfParts(w: string, f: string)
    requires |w| > 0 && AllDigits(w) && AllDigits(f) && 1 <= |f| <= 2
    ensures PriceShape(w + "." + f)
    ensures PriceCents(w + "." + f) == DigitsValue(w) * 100 + (if |f| == 1 then DigitsValue(f) * 10 else DigitsValue(f))
  {
    var t := w + "." + f;
    assert t[..|w|] == w && t[|w|] == '.' && t[|w| + 1..] == f;
    PriceCentsSplit(t, |w|);
  }

  /** Digits alone match, with their value in whole units. */
  lemma PriceOfWhole(w: string)
    requires |w| > 0 && AllDigits(w)
    ensures PriceShape(w) && PriceCents(w) == DigitsValue(w) * 100
  {
    DigitPrefixOf(w, "");
    assert w + "" == w;
  }

  /** With no white space at either end, the price chain reads the text as is. */
  lemma CheckPriceOfClean(t: string)
    requires |t| > 0 && !IsJsSpace(t[0]) && !IsJsSpace(t[|t| - 1])
    ensures !PriceShape(t) ==> CheckPrice(t) == Some(BadFormat)
    ensures PriceShape(t) && PriceCents(t) <= 0 ==> CheckPrice(t) == Some(NotPositive)
    ensures PriceShape(t) && PriceCents(t) > 0 ==> CheckPrice(t).None?
  {
    TrimOfNonSpace(t);
  }

  lemma Price1099()
    ensures CheckPrice("10.99").None?
  {
    var w, f := "10", "99";
    PriceOfParts(w, f);
    assert DigitsValue(w) > 0;
    var t := w + "." + f;
    CheckPriceOfClean(t);
    assert t == "10.99";
  }

  lemma Price105()
    ensures CheckPrice("10.5").None?
  {
    var w, f := "10", "5";
    PriceOfParts(w, f);
    assert DigitsValue(w) > 0;
    var t := w + "." + f;
    CheckPriceOfClean(t);
    assert t == "10.5";
  }

  lemma PriceZero()
    ensures CheckPrice("0") == Some(NotPositive)
  {
    var t := "0";
    PriceOfWhole(t);
    assert DigitsValue(t) == 0;
    CheckPriceOfClean(t);
  }

  lemma PriceZeroCents()
    ensures CheckPrice("0.00") == Some(NotPositive)
  {
    var w, f := "0", "00";
    PriceOfParts(w, f);
    DigitsValueZeroIff(w);
    DigitsValueZeroIff(f);
    var t := w + "." + f;
    CheckPriceOfClean(t);
    assert t == "0.00";
  }

  lemma PriceRejected(t: string)
    requires t in {"10.999", "-5"}
    ensures CheckPrice(t) == Some(BadFormat)
  {
    if t == "10.999" {
      DigitPrefixOf("10", ".999");
      assert "10" + ".999" == t;
    } else {
      DigitPrefixOf("", "-5");
      assert "" + "-5" == t;
    }
    PriceScanIff(t);
    CheckPriceOfClean(t);
  }

  /** Trimming leaves a string with no white space at either end alone. */
  lemma TrimOfNonSpace(s: string)
    requires |s| > 0 && !IsJsSpace(s[0]) && !IsJsSpace(s[|s| - 1])
    ensures JsTrim(s) == s
  {
  }

  // ---------------------------------------------------------------------------
  // The screen's state changes

  /** `handleMenuIdChange`: the menu id is locked once an item was fetched. */
  function ChangeMenuId(form: Form, text: string): (r: Form)
    ensures form.fetched ==> r == form
    ensures !form.fetched ==> r.menuId == text && r.(menuId := form.menuId) == form
  {
    if form.fetched then form else form.(menuId := text)
  }

  /** `resetForm`: every field cleared and the lock released. */
  function ResetForm(form: Form): (r: Form)
    ensures !r.fetched && r.menuId == "" && r.name == "" && r.description == ""
    ensures r.price == "" && r.category == "" && r.imageUrl == ""
  {
    EmptyForm
  }

  /** The menu record the server returns; a missing or falsy field is `None`. */
  datatype MenuRecord = MenuRecord(name: Option<string>, description: Option<string>,
                                   price: Option<string>, category: Option<string>,
                                   imageUrl: Option<string>)

  /** How GET /get_menu ended: 200 with the record, another 2xx, or a thrown error. */
  datatype FetchOutcome = Found(record: MenuRecord) | OtherStatus | FetchThrew

  function TextOrEmpty(o: Option<string>): string {
    if o.Some? then o.value else ""
  }

  /** Only the menu-id part of the checks guards the fetch. */
  function MenuIdErrors(form: Form): seq<FormError> {
    ErrorOf(MenuIdField, CheckMenuId(form.menuId))
  }

  /** `fetchMenuItem`: a bad menu id stops before the request; a found record
      fills the fields and locks the id; anything else resets the form. The
      result says whether a request was made. */
  function FetchMenuItem(form: Form, outcome: FetchOutcome): (r: (bool, Form))
    ensures r.0 <==> CheckMenuId(form.menuId).None?
    ensures !r.0 ==> r.1 == form
    ensures r.0 && outcome.Found? ==> r.1.fetched && r.1.menuId == form.menuId
    ensures r.0 && !outcome.Found? ==> r.1 == EmptyForm
  {
    if MenuIdErrors(form) != [] then (false, form)
    else match outcome
      case Found(m) =>
        (true, form.(name := TextOrEmpty(m.name), description := TextOrEmpty(m.description),
                     price := TextOrEmpty(m.price), category := TextOrEmpty(m.category),
                     imageUrl := TextOrEmpty(m.imageUrl), fetched := true))
      case _ => (true, ResetForm(form))
  }

  /** PUT /update_menu/<menuId>: the last path segment is the menu id text as
      typed (only the check trims it); the price is `parseFloat(price)`, here in
      hundredths. */
  datatype UpdateRequest = UpdateRequest(menuId: string, name: string, description: string,
                                         price: int, category: string, imageUrl: string)

  /** `handleUpdateMenu` up to the request: `None` when validation fails. */
  function UpdateRequestOf(form: Form): (r: Option<UpdateRequest>)
    ensures r.Some? <==> ValidateForm(form) == []
    ensures r.Some? ==> r.value.menuId == form.menuId
                        && AllDigits(JsTrim(form.menuId)) && DigitsValue(JsTrim(form.menuId)) > 0
    ensures r.Some? ==> r.value.price > 0
    ensures r.Some? ==> r.value.name == form.name && r.value.description == form.description
                        && r.value.category == form.category && r.value.imageUrl == form.imageUrl
  {
    if ValidateForm(form) != [] then None
    else
      var p := JsTrim(form.price);
      AcceptedValues(form);
      Some(UpdateRequest(form.menuId, form.name, form.description, PriceCents(p), form.category, form.imageUrl))
  }

  /** A form that passes carries a positive menu id and a positive price. */
  lemma AcceptedValues(form: Form)
    requires ValidateForm(form) == []
    ensures AllDigits(JsTrim(form.menuId)) && DigitsValue(JsTrim(form.menuId)) > 0
    ensures PriceShape(JsTrim(form.price)) && PriceCents(JsTrim(form.price)) > 0
    ensures |form.name| >= 3 && |form.category| >= 3 && |form.description| >= 10
  {
    ValidIffAllAcceptable(form);
    DigitsValueZeroIff(JsTrim(form.menuId));
    PricePositiveIff(JsTrim(form.price));
  }

  /** The price sent is the value of the price typed: `parseFloat` of the
      field reads the same number the pattern accepted in the trimmed text. */
  lemma UpdateRequestPrice(form: Form)
    requires UpdateRequestOf(form).Some?
    ensures PriceShape(JsTrim(form.price))
    ensures UpdateRequestOf(form).value.price == PriceCents(JsTrim(form.price))
  {
    AcceptedValues(form);
  }

  /** A request the screen sends has a nonempty name and a positive price. */
  lemma RequestFieldsPresent(form: Form)
    requires UpdateRequestOf(form).Some?
    ensures UpdateRequestOf(form).value.name != "" && UpdateRequestOf(form).value.price > 0
  {
    AcceptedValues(form);
  }

  /** The form after the update: reset on status 200, unchanged otherwise
      (another status, an error reply, or no request at all). */
  function AfterUpdate(form: Form, status: Option<int>): (r: Form)
    ensures UpdateRequestOf(form).Some? && status == Some(200) ==> r == EmptyForm
    ensures UpdateRequestOf(form).None? || status != Some(200) ==> r == form
  {
    if UpdateRequestOf(form).Some? && status == Some(200) then ResetForm(form) else form
  }
}
