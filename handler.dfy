/** One request to the inventory page: seed the session's product list on
    first use, and for a POST validate the submission and either append the
    product (setting the success flash and redirecting) or fall through to
    the page, which shows the flash message once and unsets it. */
module Handler {
  import opened Wrappers
  import opened PhpText
  import opened Validation
  import opened Catalogue

  /** The request as the handler sees it: the HTTP method and the POST
      fields (only read for a POST). */
  datatype Request = Request(verb: string, post: RawForm)

  /** What the request ends with: the post/redirect/get redirect after a
      successful add; the rendered page, with the product list, the error
      map, the cleaned submission kept for repopulating the form (none on a
      GET) and the flash message shown; or a script aborted by a TypeError
      in the named field. */
  datatype Response =
    | Redirect
    | Page(products: seq<Product>, errors: map<string, string>,
           submitted: Option<Form>, flash: Option<string>)
    | Fatal(field: string)

  /** The session keys the handler uses: `products` and `flash_success`,
      each possibly unset. */
  datatype State = State(products: Option<seq<Product>>, flash: Option<string>)

  /** A session whose product list, once set, is well formed. */
  predicate Consistent(st: State)
  {
    st.products.Some? ==> WellFormed(st.products.value)
  }

  /** `if (!isset($_SESSION['products'])) $_SESSION['products'] = [...]`. */
  function Seeded(st: State): (r: State)
    ensures r.products.Some? && r.flash == st.flash
    ensures st.products.Some? ==> r == st
    ensures st.products.None? ==> r.products.value == Seed()
  {
    if st.products.None? then st.(products := Some(Seed())) else st
  }

  const AddedPrefix := "Product added successfully (ID: "
  const AddedSuffix := ")."

  /** The flash message set after a successful add: the fixed prefix, the
      id in decimal (at least one digit, no leading zero), the suffix. */
  function AddedMessage(id: nat): (m: string)
    ensures |m| > |AddedPrefix| + |AddedSuffix|
    ensures m[..|AddedPrefix|] == AddedPrefix
    ensures m[|m| - |AddedSuffix|..] == AddedSuffix
    ensures var digits := m[|AddedPrefix|..|m| - |AddedSuffix|];
      AllDigits(digits) && (|digits| > 1 ==> digits[0] != '0')
  {
    var m := AddedPrefix + Decimal(id) + AddedSuffix;
    assert m[|AddedPrefix|..|m| - |AddedSuffix|] == Decimal(id);
    m
  }

  /** The success message names the new id: the digits between its fixed
      prefix and suffix read back as the id itself. So different ids give
      different messages. */
  lemma AddedMessageNamesId(id: nat)
    ensures var m := AddedMessage(id);
      DigitsValue(m[|AddedPrefix|..|m| - |AddedSuffix|]) == id
  {
    var m := AddedMessage(id);
    assert m[|AddedPrefix|..|m| - |AddedSuffix|] == Decimal(id);
    DecimalRoundTrip(id);
  }

  /** The page's flash block: a message is shown only when it is set and
      not PHP-empty, and only then is it unset. Gives the message shown and
      what the session keeps. */
  function ShowFlash(flash: Option<string>): (r: (Option<string>, Option<string>))
    ensures r.0.Some? ==> r.0 == flash && r.1 == None
    ensures r.0.None? ==> r.1 == flash
    ensures r.0.Some? <==> flash.Some? && !PhpEmpty(flash.value)
  {
    if flash.Some? && !PhpEmpty(flash.value) then (flash, None) else (None, flash)
  }

  /** A message is shown at most once: the page after a page shows none. */
  lemma FlashShownOnce(flash: Option<string>)
    ensures ShowFlash(ShowFlash(flash).1).0 == None
  {
  }

  /** Rendering: consume the flash, show the list as it stands. The page
      carries the current list, the errors and the submitted values; a
      message it shows is the session's, and is gone from the session
      afterwards; otherwise the session's flash stays as it was. */
  function RenderPage(st: State, errors: map<string, string>, submitted: Option<Form>): (r: (State, Response))
    requires st.products.Some?
    ensures r.0.products == st.products
    ensures r.1.Page? && r.1 == Page(st.products.value, errors, submitted, r.1.flash)
    ensures r.1.flash.Some? <==> st.flash.Some? && !PhpEmpty(st.flash.value)
    ensures r.1.flash.Some? ==> r.1.flash == st.flash && r.0.flash == None
    ensures r.1.flash.None? ==> r.0.flash == st.flash
  {
    var (shown, kept) := ShowFlash(st.flash);
    (st.(flash := kept), Page(st.products.value, errors, submitted, shown))
  }

  /** The whole request: the new session state and the response. */
  function Handle(st: State, req: Request): (r: (State, Response))
    requires Consistent(st)
    ensures Consistent(r.0) && r.0.products.Some?
  {
    var s := Seeded(st);
    var ps := s.products.value;
    if req.verb == "POST" then
      var form := CleanForm(req.post);
      match Validate(form)
      case Aborted(field) => (s, Fatal(field))
      case Checked(errors) =>
        if errors == map[] then
          assert Acceptable(form) by { NoErrorsIffAcceptable(form); }
          var id := NextId(ps);
          var ps' := Added(ps, form.name.s, form.description.s, form.price.s, form.category.s);
          AddedWellFormed(ps, form.name.s, form.description.s, form.price.s, form.category.s);
          (State(Some(ps'), Some(AddedMessage(id))), Redirect)
        else
          RenderPage(s, errors, Some(form))
    else
      RenderPage(s, map[], None)
  }

  /** A request ends in a redirect exactly when it is a POST whose cleaned
      fields all pass their rules. */
  lemma RedirectIffAccepted(st: State, req: Request)
    requires Consistent(st)
    ensures Handle(st, req).1.Redirect? <==> req.verb == "POST" && Acceptable(CleanForm(req.post))
  {
    NoErrorsIffAcceptable(CleanForm(req.post));
  }

  /** An accepted submission appends exactly one product at the end, with
      the next id and the cleaned name, description, price and category,
      leaves every earlier product as it was, and sets the success flash
      naming that id. */
  lemma AcceptedAppendsOne(st: State, req: Request)
    requires Consistent(st)
    requires req.verb == "POST" && Acceptable(CleanForm(req.post))
    ensures var before := Seeded(st).products.value;
      var (st', resp) := Handle(st, req);
      var form := CleanForm(req.post);
      && resp == Redirect
      && |st'.products.value| == |before| + 1
      && st'.products.value[..|before|] == before
      && var p := st'.products.value[|before|];
      && p.id == NextId(before)
      && (forall i | 0 <= i < |before| :: before[i].id < p.id)
      && p.name == form.name.s && p.description == form.description.s
      && p.price == Price(form.price.s) && p.category == form.category.s
      && p.id >= 1 && st'.flash == Some(AddedMessage(p.id))
  {
    NoErrorsIffAcceptable(CleanForm(req.post));
  }

  /** A request that does not end in a redirect leaves the product list as
      it was (after seeding) and sets no flash: a refused submission, a
      failed one and a plain page view change nothing but the flash the
      page consumes. */
  lemma OtherwiseListUnchanged(st: State, req: Request)
    requires Consistent(st)
    requires !Handle(st, req).1.Redirect?
    ensures Handle(st, req).0.products == Seeded(st).products
    ensures Handle(st, req).0.flash == st.flash || Handle(st, req).0.flash == None
  {
  }

  /** Each refused submission comes back as the page, with the error map
      and the cleaned input for the form. */
  lemma RefusedShowsErrors(st: State, req: Request)
    requires Consistent(st)
    requires req.verb == "POST"
    requires Validate(CleanForm(req.post)).Checked? && Validate(CleanForm(req.post)).errors != map[]
    ensures var resp := Handle(st, req).1;
      && resp.Page?
      && resp.errors == Validate(CleanForm(req.post)).errors
      && resp.submitted == Some(CleanForm(req.post))
      && resp.products == Seeded(st).products.value
  {
  }

  /** A POST whose cleaned name or description is an array ends the script
      at the first `mb_strlen` on it: the response is the fatal error naming
      that field, and the session is only seeded, its flash kept unseen. */
  lemma ArrayFieldAborts(st: State, req: Request)
    requires Consistent(st)
    ensures var form := CleanForm(req.post);
      Handle(st, req).1.Fatal? <==> req.verb == "POST" && (form.name.List? || form.description.List?)
    ensures var form := CleanForm(req.post);
      req.verb == "POST" && form.name.List? ==> Handle(st, req) == (Seeded(st), Fatal("name"))
    ensures var form := CleanForm(req.post);
      req.verb == "POST" && form.name.Text? && form.description.List? ==>
        Handle(st, req) == (Seeded(st), Fatal("description"))
  {
  }

  /** A request that is not a POST renders the page with no errors and no
      submitted values, the list as seeded, and the flash block's result. */
  lemma PlainViewRenders(st: State, req: Request)
    requires Consistent(st)
    requires req.verb != "POST"
    ensures Handle(st, req).1 == Page(Seeded(st).products.value, map[], None, ShowFlash(st.flash).0)
    ensures Handle(st, req).0 == State(Seeded(st).products, ShowFlash(st.flash).1)
  {
  }

  /** At-most-once delivery: when two pages are rendered in a row, the
      second shows no flash message. */
  lemma FlashNotShownTwice(st: State, first: Request, second: Request)
    requires Consistent(st)
    requires Handle(st, first).1.Page?
    requires Handle(Handle(st, first).0, second).1.Page?
    ensures Handle(Handle(st, first).0, second).1.flash == None
  {
  }

  /** The session state after a sequence of requests. */
  function Run(st: State, reqs: seq<Request>): (r: State)
    requires Consistent(st)
    ensures Consistent(r)
    decreases |reqs|
  {
    if reqs == [] then st else Run(Handle(st, reqs[0]).0, reqs[1..])
  }

  /** Over any sequence of requests the product list only grows at its end:
      a list present before is a prefix of the list after, so no product is
      removed or changed and, ids being increasing, no id is reused. */
  lemma {:induction false} RunExtends(st: State, reqs: seq<Request>)
    requires Consistent(st) && st.products.Some?
    ensures Run(st, reqs).products.Some?
    ensures |st.products.value| <= |Run(st, reqs).products.value|
    ensures Run(st, reqs).products.value[..|st.products.value|] == st.products.value
    decreases |reqs|
  {
    if reqs != [] {
      var st1 := Handle(st, reqs[0]).0;
      assert st1.products.value[..|st.products.value|] == st.products.value by {
        if Handle(st, reqs[0]).1.Redirect? {
          AcceptedStep(st, reqs[0]);
        }
      }
      RunExtends(st1, reqs[1..]);
      var ps, ps1, psn := st.products.value, st1.products.value, Run(st, reqs).products.value;
      assert psn[..|ps1|] == ps1;
      assert psn[..|ps|] == ps1[..|ps|];
    }
  }

  /** One step of the above for a redirecting request. */
  lemma AcceptedStep(st: State, req: Request)
    requires Consistent(st) && st.products.Some?
    requires Handle(st, req).1.Redirect?
    ensures |st.products.value| <= |Handle(st, req).0.products.value|
    ensures Handle(st, req).0.products.value[..|st.products.value|] == st.products.value
  {
    RedirectIffAccepted(st, req);
    AcceptedAppendsOne(st, req);
  }

  /** The session object: the two session keys, updated in place. */
  class Session {
    var products: Option<seq<Product>>
    var flash: Option<string>

    ghost predicate Valid()
      reads this
    {
      Consistent(State(products, flash))
    }

    function Snapshot(): State
      reads this
    {
      State(products, flash)
    }

    /** A new session: nothing stored yet. */
    constructor ()
      ensures Valid() && products == None && flash == None
    {
      products := None;
      flash := None;
    }

    /** Seed the product list if the session has none. */
    method SeedIfAbsent()
      requires Valid()
      modifies this
      ensures Valid() && Snapshot() == Seeded(old(Snapshot()))
    {
      if products.None? {
        products := Some(Seed());
      }
    }

    /** The flash block of the page: read the message, and unset it if it
        was shown. */
    method TakeFlash() returns (shown: Option<string>)
      requires Valid()
      modifies this
      ensures Valid()
      ensures (shown, flash) == ShowFlash(old(flash))
      ensures products == old(products)
      ensures shown.Some? ==> flash == None
    {
      shown := None;
      if flash.Some? && !PhpEmpty(flash.value) {
        shown := flash;
        flash := None;
      }
    }

    /** The add path: append the product with id `1 + max(ids)` and set the
        success flash naming it. */
    method AddProduct(form: Form) returns (id: nat)
      requires Valid() && products.Some? && Acceptable(form)
      modifies this
      ensures Valid() && products.Some?
      ensures id == NextId(old(products.value))
      ensures products.value == old(products.value) + [Product(id, form.name.s, form.description.s,
                                                                 Price(form.price.s), form.category.s)]
      ensures flash == Some(AddedMessage(id))
    {
      var ps := products.value;
      id := NextId(ps);
      var p := Product(id, form.name.s, form.description.s, Price(form.price.s), form.category.s);
      AddedWellFormed(ps, form.name.s, form.description.s, form.price.s, form.category.s);
      products := Some(ps + [p]);
      flash := Some(AddedMessage(id));
    }

    /** One request against this session. */
    method HandleRequest(req: Request) returns (resp: Response)
      requires Valid()
      modifies this
      ensures Valid()
      ensures (Snapshot(), resp) == Handle(old(Snapshot()), req)
    {
      SeedIfAbsent();
      var errors: map<string, string> := map[];
      var submitted: Option<Form> := None;
      if req.verb == "POST" {
        var form := CleanForm(req.post);
        var outcome := Validate(form);
        if outcome.Aborted? {
          return Fatal(outcome.field);
        }
        errors := outcome.errors;
        if errors == map[] {
          NoErrorsIffAcceptable(form);
          var _ := AddProduct(form);
          return Redirect;
        }
        submitted := Some(form);
      }
      var shown := TakeFlash();
      resp := Page(products.value, errors, submitted, shown);
    }
  }
}
