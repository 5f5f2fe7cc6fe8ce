/** Collecting and validating the four fields of an add-product submission:
    `clean` on each POST value, then the per-field rules that fill the
    field-to-message error map. */
module Validation {
  import opened Wrappers
  import opened PhpText
  import opened PhpNumeric

  /** The categories offered by the form; a submission must name one exactly. */
  const Categories: seq<string> := ["Electronics", "Books", "Groceries", "Clothing", "Other"]

  /** The keys the error map may hold. */
  const FieldNames: set<string> := {"name", "description", "price", "category"}

  const NameRequired := "Name is required"
  const NameTooShort := "Name must be at least 2 characters"
  const DescriptionRequired := "Description is required"
  const DescriptionTooShort := "Description must be at least 5 characters"
  const PriceRequired := "Price is required"
  const PriceNotNumber := "Price must be a number"
  const PriceNotPositive := "Price must be greater than 0"
  const CategoryRequired := "Category is required"
  const CategoryInvalid := "Invalid category"

  /** One POST value: a plain string, or an array (a field submitted as
      `name[]=…`), whose items are carried along untouched. */
  datatype Field = Text(s: string) | List(items: seq<string>)

  /** The four POST values as they arrive; `None` is a field not submitted. */
  datatype RawForm = RawForm(name: Option<Field>, description: Option<Field>,
                             price: Option<Field>, category: Option<Field>)

  /** The four values after `clean`. */
  datatype Form = Form(name: Field, description: Field, price: Field, category: Field)

  /** The validation step either fills an error map or stops the request:
      `mb_strlen` on an array throws a TypeError (PHP 8), which ends the
      script at the field named. */
  datatype Outcome = Checked(errors: map<string, string>) | Aborted(field: string)

  /** `clean($_POST[k] ?? '')`: a missing field becomes "", an array passes
      through unchanged, a string is trimmed. */
  function Clean(v: Option<Field>): (r: Field)
    ensures v.None? ==> r == Text("")
    ensures v.Some? && v.value.List? ==> r == v.value
    ensures v.Some? && v.value.Text? ==> r == Text(Trim(v.value.s))
    ensures r.Text? ==> Trimmed(r.s)
  {
    match v
    case None => Text("")
    case Some(List(items)) => List(items)
    case Some(Text(s)) => Text(Trim(s))
  }

  /** `clean` is idempotent: cleaning a cleaned value changes nothing. */
  lemma CleanIdempotent(v: Option<Field>)
    ensures Clean(Some(Clean(v))) == Clean(v)
  {
    if Clean(v).Text? {
      TrimOfTrimmed(Clean(v).s);
    }
  }

  /** The four fields collected from the POST data, each cleaned. Every
      text field comes out trimmed, and collecting the collected values a
      second time changes nothing. */
  function CleanForm(raw: RawForm): (f: Form)
    ensures f == Form(Clean(raw.name), Clean(raw.description), Clean(raw.price), Clean(raw.category))
    ensures f.name.Text? ==> Trimmed(f.name.s)
    ensures f.description.Text? ==> Trimmed(f.description.s)
    ensures f.price.Text? ==> Trimmed(f.price.s)
    ensures f.category.Text? ==> Trimmed(f.category.s)
    ensures Form(Clean(Some(f.name)), Clean(Some(f.description)),
                 Clean(Some(f.price)), Clean(Some(f.category))) == f
  {
    CleanIdempotent(raw.name);
    CleanIdempotent(raw.description);
    CleanIdempotent(raw.price);
    CleanIdempotent(raw.category);
    Form(Clean(raw.name), Clean(raw.description), Clean(raw.price), Clean(raw.category))
  }

  /** The message recorded for `key`, if any. */
  function Lookup(errors: map<string, string>, key: string): Option<string>
  {
    if key in errors then Some(errors[key]) else None
  }

  /** Every field passes its rules: the submission is accepted. */
  predicate Acceptable(f: Form)
  {
    && f.name.Text? && |f.name.s| >= 2
    && f.description.Text? && |f.description.s| >= 5
    && f.price.Text? && IsNumeric(f.price.s) && DenotesPositive(f.price.s)
    && f.category.Text? && f.category.s in Categories
  }

  /** The name rules: required, then at least 2 characters. */
  function NameError(n: string): (r: Option<string>)
    ensures r == Some(NameRequired) <==> n == ""
    ensures r == Some(NameTooShort) <==> |n| == 1
    ensures r == None <==> |n| >= 2
  {
    if n == "" then Some(NameRequired)
    else if |n| < 2 then Some(NameTooShort)
    else None
  }

  /** The description rules: required, then at least 5 characters. */
  function DescriptionError(d: string): (r: Option<string>)
    ensures r == Some(DescriptionRequired) <==> d == ""
    ensures r == Some(DescriptionTooShort) <==> 1 <= |d| <= 4
    ensures r == None <==> |d| >= 5
  {
    if d == "" then Some(DescriptionRequired)
    else if |d| < 5 then Some(DescriptionTooShort)
    else None
  }

  /** The price rules: required, then numeric, then greater than 0. An
      array is neither "" nor numeric. */
  function PriceError(v: Field): (r: Option<string>)
    ensures r == Some(PriceRequired) <==> v == Text("")
    ensures r == Some(PriceNotNumber) <==> v.List? || (v.s != "" && !IsNumeric(v.s))
    ensures r == Some(PriceNotPositive) <==> v.Text? && IsNumeric(v.s) && !DenotesPositive(v.s)
    ensures r == None <==> v.Text? && IsNumeric(v.s) && DenotesPositive(v.s)
  {
    match v
    case List(_) => Some(PriceNotNumber)
    case Text(p) =>
      if p == "" then Some(PriceRequired)
      else if !IsNumeric(p) then Some(PriceNotNumber)
      else if !DenotesPositive(p) then Some(PriceNotPositive)
      else None
  }

  /** The category rules: required, then a strict (case-sensitive, no type
      juggling) member of the configured list. An array matches none. */
  function CategoryError(v: Field): (r: Option<string>)
    ensures r == Some(CategoryRequired) <==> v == Text("")
    ensures r == Some(CategoryInvalid) <==> v.List? || (v.s != "" && v.s !in Categories)
    ensures r == None <==> v.Text? && v.s in Categories
  {
    match v
    case List(_) => Some(CategoryInvalid)
    case Text(c) =>
      if c == "" then Some(CategoryRequired)
      else if c !in Categories then Some(CategoryInvalid)
      else None
  }

  /** `$errors[key] = message` when a rule failed. */
  function Record(errors: map<string, string>, key: string, e: Option<string>): (r: map<string, string>)
    ensures Lookup(r, key) == e || (e.None? && key in errors)
    ensures forall k | k != key :: Lookup(r, k) == Lookup(errors, k)
    ensures r.Keys <= errors.Keys + {key}
  {
    if e.Some? then errors[key := e.value] else errors
  }

  /** The validation block: each field is checked in turn, its first failing
      rule recording that field's message. */
  function Validate(f: Form): (r: Outcome)
    ensures r.Aborted? <==> f.name.List? || f.description.List?
    ensures r.Aborted? ==> r.field == if f.name.List? then "name" else "description"
    ensures r.Checked? ==> r.errors.Keys <= FieldNames
    ensures r.Checked? ==> Lookup(r.errors, "name") == NameError(f.name.s)
    ensures r.Checked? ==> Lookup(r.errors, "description") == DescriptionError(f.description.s)
    ensures r.Checked? ==> Lookup(r.errors, "price") == PriceError(f.price)
    ensures r.Checked? ==> Lookup(r.errors, "category") == CategoryError(f.category)
  {
    if f.name.List? then Aborted("name")
    else
      var afterName := Record(map[], "name", NameError(f.name.s));
      if f.description.List? then Aborted("description")
      else
        var afterDescription := Record(afterName, "description", DescriptionError(f.description.s));
        var afterPrice := Record(afterDescription, "price", PriceError(f.price));
        var errors := Record(afterPrice, "category", CategoryError(f.category));
        Checked(errors)
  }

  /** A submission produces an empty error map exactly when every field
      passes its rules. */
  lemma NoErrorsIffAcceptable(f: Form)
    ensures Validate(f) == Checked(map[]) <==> Acceptable(f)
  {
    var r := Validate(f);
    if r.Checked? {
      var e := r.errors;
      if e == map[] {
        assert Lookup(e, "name") == None && Lookup(e, "description") == None;
        assert Lookup(e, "price") == None && Lookup(e, "category") == None;
      } else {
        var k :| k in e;
        assert k in FieldNames;
        assert Lookup(e, k) != None;
      }
    }
  }

  /** Name messages and their precedence, read off the error map that
      `Validate` fills: `NameError`'s contract seen through the map entry
      for "name". "Required" exactly for an empty name, "at least 2
      characters" exactly for a one-character name, nothing from two on. */
  lemma NameMessages(f: Form)
    requires f.name.Text? && f.description.Text?
    ensures Lookup(Validate(f).errors, "name") == Some(NameRequired) <==> f.name.s == ""
    ensures Lookup(Validate(f).errors, "name") == Some(NameTooShort) <==> |f.name.s| == 1
    ensures Lookup(Validate(f).errors, "name") == None <==> |f.name.s| >= 2
  {
  }

  /** Description messages, read off the error map (`DescriptionError`'s
      contract seen through the map entry): "required" exactly when empty,
      "at least 5 characters" exactly for 1 to 4 characters, nothing from 5. */
  lemma DescriptionMessages(f: Form)
    requires f.name.Text? && f.description.Text?
    ensures Lookup(Validate(f).errors, "description") == Some(DescriptionRequired) <==> f.description.s == ""
    ensures Lookup(Validate(f).errors, "description") == Some(DescriptionTooShort) <==> 1 <= |f.description.s| <= 4
    ensures Lookup(Validate(f).errors, "description") == None <==> |f.description.s| >= 5
  {
  }

  /** Price messages, read off the error map (`PriceError`'s contract seen
      through the map entry): at most one, in the order required, number,
      positive. */
  lemma PriceMessages(f: Form)
    requires f.name.Text? && f.description.Text?
    ensures Lookup(Validate(f).errors, "price") == Some(PriceRequired) <==> f.price == Text("")
    ensures Lookup(Validate(f).errors, "price") == Some(PriceNotNumber) <==>
              f.price.List? || (f.price.s != "" && !IsNumeric(f.price.s))
    ensures Lookup(Validate(f).errors, "price") == Some(PriceNotPositive) <==>
              f.price.Text? && IsNumeric(f.price.s) && !DenotesPositive(f.price.s)
    ensures Lookup(Validate(f).errors, "price") == None <==>
              f.price.Text? && IsNumeric(f.price.s) && DenotesPositive(f.price.s)
  {
  }

  /** Category messages, read off the error map (`CategoryError`'s contract
      seen through the map entry): "required" exactly when empty, "invalid"
      exactly when it is not one of the configured names. */
  lemma CategoryMessages(f: Form)
    requires f.name.Text? && f.description.Text?
    ensures Lookup(Validate(f).errors, "category") == Some(CategoryRequired) <==> f.category == Text("")
    ensures Lookup(Validate(f).errors, "category") == Some(CategoryInvalid) <==>
              f.category.List? || (f.category.s != "" && f.category.s !in Categories)
    ensures Lookup(Validate(f).errors, "category") == None <==>
              f.category.Text? && f.category.s in Categories
  {
  }

  /** Each field's outcome depends on that field alone: two submissions
      that agree on a field get the same message (or none) for it. */
  lemma FieldsIndependent(f: Form, g: Form, key: string)
    requires f.name.Text? && f.description.Text? && g.name.Text? && g.description.Text?
    requires key == "name" ==> f.name == g.name
    requires key == "description" ==> f.description == g.description
    requires key == "price" ==> f.price == g.price
    requires key == "category" ==> f.category == g.category
    ensures Lookup(Validate(f).errors, key) == Lookup(Validate(g).errors, key)
  {
    var ef, eg := Validate(f).errors, Validate(g).errors;
    if key !in FieldNames {
      assert key !in ef && key !in eg;
    }
  }

  /** The shortest acceptable submission: a two-character name, a
      five-character description, a price written as digits, a point and
      digits with a non-zero first digit ("9.99"), and a listed category. */
  lemma ShortestAccepted(n: string, d: string, a: string, b: string, c: string)
    requires |n| == 2 && |d| == 5
    requires AllDigits(a) && AllDigits(b) && a != [] && a[0] != '0'
    requires c in Categories
    ensures Validate(Form(Text(n), Text(d), Text(a + "." + b), Text(c))) == Checked(map[])
  {
    var f := Form(Text(n), Text(d), Text(a + "." + b), Text(c));
    PointLiteralIsNumeric(a, b);
    PointLiteralPositive(a, b, 0);
    NoErrorsIffAcceptable(f);
  }

  /** A price made only of zeros ("0", "00") is a number but not greater
      than 0. */
  lemma ZeroPriceRefused(z: string)
    requires z != [] && forall k | 0 <= k < |z| :: z[k] == '0'
    ensures PriceError(Text(z)) == Some(PriceNotPositive)
  {
    DigitsAreNumeric(z);
  }

  /** A price written as a minus sign and digits ("-1") is a number but not
      greater than 0. */
  lemma NegativePriceRefused(d: string)
    requires d != [] && AllDigits(d)
    ensures PriceError(Text("-" + d)) == Some(PriceNotPositive)
  {
    var s := "-" + d;
    BodyOfBare(s);
    assert Unsigned(s) == d;
    DigitsAreNumeric(d);
  }

  /** A price starting with a letter ("abc") is not a number. */
  lemma LetterPriceRefused(s: string)
    requires s != [] && ('a' <= s[0] <= 'z' || 'A' <= s[0] <= 'Z')
    ensures PriceError(Text(s)) == Some(PriceNotNumber)
  {
    NotNumericAtStart(s);
  }

  /** A one-character name is too short; a category differing only in case
      from a configured one ("books") is invalid. */
  lemma OtherRefusals()
    ensures NameError("A") == Some(NameTooShort)
    ensures CategoryError(Text("books")) == Some(CategoryInvalid)
  {
  }
}
