# PHP product inventory: request-handling core in Dafny

This project models the request handling of a one-page PHP product inventory
(`index.php`). The page keeps a product list in the visitor's session and
offers a form to add a product. One request runs these steps:

1. Seed the session's product list with two products (ids 1 and 2) if the list is not set yet.
2. On a POST, collect the four fields `name`, `description`, `price` and `category`.
   `clean` turns a missing field into `""`, trims a string and passes an array through.
3. Validate each field with its ordered rules. The first failing rule records the field's message in the error map:
   - name: required, then at least 2 characters;
   - description: required, then at least 5 characters;
   - price: required, then `is_numeric`, then greater than 0;
   - category: required, then one of `Electronics`, `Books`, `Groceries`, `Clothing`, `Other` (strict match).
4. If the map is empty, append the product with id `1 + max(existing ids)`.
   Then set the flash message `Product added successfully (ID: <id>).` and redirect (post/redirect/get).
5. Otherwise render the page. The flash block shows the message only when it is set and not PHP-empty, and unsets it only then.

Modules, one file each:

- `Wrappers` (`wrappers.dfy`): the `Option` type.
- `PhpText` (`php_text.dfy`): the PHP string built-ins used here.
  It covers `trim`, `empty` on a string, and the decimal text of an integer.
  Its run-length helpers count the whitespace that `trim` strips.
- `PhpNumeric` (`php_numeric.dfy`): PHP 8's `is_numeric` grammar for strings, and the sign test on the number a string denotes.
- `Validation` (`validation.dfy`): POST values, `clean`, the validation block and its properties.
- `Catalogue` (`catalogue.dfy`): product records, the seed list, the id rule and the list invariant.
  The invariant: the list is non-empty, its first id is at least 1, and ids strictly increase.
- `Handler` (`handler.dfy`): the whole request as a pure function `Handle` from the session state and request to the new state and response.
  It also holds the properties across requests, and the `Session` class.
  `Session` holds the two session keys as fields. Its methods change those fields in place and are proved equal to `Handle`.

A POST value is either a string or an array, since a form can submit `name[]=…`.
The model follows PHP 8 when a field is an array:
- `mb_strlen` on an array throws a TypeError. An array in `name` or `description` therefore ends the script.
  The model's response for this is `Fatal`. The session keeps the seeding done before the error.
- An array `price` is not numeric, so it gets "Price must be a number".
- An array `category` matches no configured category, so it gets "Invalid category".

Two behaviours of `index.php` are worth stating outright:
- The flash message is unset only inside the `!empty(...)` branch that shows it. A flash of `""` or `"0"` is neither shown nor unset; it stays in the session.
- There is no delete action, and no CSRF token or id check. A product, once added, stays in the session's list.

## Model

| member | source | states |
|---|---|---|
| `PhpText.Trim` | index.php:39 | The result has no strippable whitespace at either end. It is the part of the input left after removing whitespace-only runs from both ends. |
| `PhpText.TrimIdempotent` | index.php:39 | Trimming a trimmed string changes nothing. |
| `PhpText.DecimalRoundTrip` | index.php:103 | Reading back the decimal text of an id gives the id. |
| `PhpText.DecimalInjective` | index.php:103 | Different ids have different decimal texts. |
| `PhpNumeric.IsNumeric` | index.php:71 | `is_numeric` on a string (optional whitespace, sign, mantissa with at most one point, optional exponent, optional whitespace). Every string it accepts contains a digit, so `""` is never numeric. |
| `PhpNumeric.DenotesPositive` | index.php:73 | The `> 0` side of the price test. A string it accepts holds a digit from 1 to 9, and its first non-whitespace character is not a minus sign. |
| `PhpNumeric.DigitsAreNumeric` | index.php:71-73 | A non-empty run of digits is numeric. It is greater than 0 iff some digit is not 0. |
| `PhpNumeric.PointLiteralIsNumeric` | index.php:71 | Digits, a decimal point, then digits, with at least one digit in all, is numeric ("9.99", "1.", ".5"). |
| `PhpNumeric.PointLiteralPositive` | index.php:73 | Such a literal with a non-zero digit before the point is greater than 0. |
| `PhpNumeric.NotNumericAtStart` | index.php:71 | A string starting with anything but whitespace, a sign, a digit or a point is not numeric. |
| `Validation.Clean` | index.php:35-40 | A missing field becomes `""`. An array passes through unchanged. A string comes back as its `trim`: no whitespace at either end, cut from the input by removing whitespace-only runs. |
| `Validation.CleanIdempotent` | index.php:35-40 | `clean(clean(v)) == clean(v)`. |
| `Validation.CleanForm` | index.php:46-51 | Each of the four collected fields is `Clean` of the submitted value for that key. So every string field comes out trimmed, and collecting the collected values again changes nothing. |
| `Validation.NameError` | index.php:55-59 | The name rule gives "Name is required" iff the name is `""`, "at least 2 characters" iff it has one character, and nothing iff it has two or more. |
| `Validation.DescriptionError` | index.php:62-66 | "Description is required" iff `""`, "at least 5 characters" iff 1 to 4 characters, nothing iff 5 or more. |
| `Validation.PriceError` | index.php:69-75 | "Price is required" iff `""`. "must be a number" iff an array or a non-empty non-numeric string. "greater than 0" iff numeric but not positive. Nothing iff numeric and positive. |
| `Validation.CategoryError` | index.php:79-83 | "Category is required" iff `""`. "Invalid category" iff an array or a non-empty string not in the list (strict match). Nothing iff in the list. |
| `Validation.Validate` | index.php:55-83 | The script aborts exactly when name or description is an array, and names that field. Only the four field names can be keys. Each field's entry is the verdict of that field's own rules, so fields do not affect each other. |
| `Validation.NoErrorsIffAcceptable` | index.php:55-86 | The error map is empty exactly when every field passes all its rules. |
| `Validation.NameMessages` | index.php:55-59 | "Name is required" iff the cleaned name is empty. "at least 2 characters" iff it has 1 character. No name error iff it has 2 or more. |
| `Validation.DescriptionMessages` | index.php:62-66 | "Description is required" iff empty. "at least 5 characters" iff 1 to 4 characters. No error iff 5 or more. |
| `Validation.PriceMessages` | index.php:69-75 | "Price is required" iff the price is `""`. "must be a number" iff it is an array or a non-empty non-numeric string. "greater than 0" iff it is numeric but not positive. No error iff numeric and positive. At most one message, in that order. |
| `Validation.CategoryMessages` | index.php:79-83 | "Category is required" iff `""`. "Invalid category" iff an array, or a non-empty string outside the five configured names (case-sensitive). No error iff one of those names. |
| `Validation.FieldsIndependent` | index.php:55-83 | Two submissions that agree on a field get the same message, or none, for that field. |
| `Validation.ShortestAccepted` | index.php:55-83 | A two-character name, a five-character description, a price such as "9.99" (digits, point, digits, non-zero first digit) and a listed category give an empty error map. |
| `Validation.ZeroPriceRefused` | index.php:73-74 | A price of only zeros, such as "0", gets "Price must be greater than 0". |
| `Validation.NegativePriceRefused` | index.php:73-74 | A minus sign followed by digits, such as "-1", gets "Price must be greater than 0". |
| `Validation.LetterPriceRefused` | index.php:71-72 | A price starting with a letter, such as "abc", gets "Price must be a number". |
| `Validation.OtherRefusals` | index.php:55-83 | Name "A" is too short. Category "books" is invalid because the match is case-sensitive. |
| `Catalogue.Seed` | index.php:10-27 | The seeded list (ids 1 and 2) meets the list invariant. |
| `Catalogue.MaxId` | index.php:88 | `max` of the ids: no id exceeds it, and some id equals it. |
| `Catalogue.NextId` | index.php:88 | The new id is larger than every id in the list and exactly one more than one of them, which makes it `1 + max`. |
| `Catalogue.MaxIdIsLast` | index.php:88 | In a list that meets the invariant, the largest id is the last product's. |
| `Catalogue.IdsUnique` | index.php:88-99 | Strictly increasing ids never repeat. |
| `Catalogue.Added` | index.php:88-99 | Appending keeps every earlier product and adds exactly one at the end. That product has id `NextId` and the given name, description, price literal and category. Its id is above all earlier ids. |
| `Catalogue.AddedWellFormed` | index.php:88-100 | Appending a product preserves the list invariant. |
| `Handler.Seeded` | index.php:10-28 | An unset product list becomes the seed list. A set list and the flash are left alone. |
| `Handler.AddedMessage` | index.php:103 | The success message is the prefix `Product added successfully (ID: `, then decimal digits without a leading zero, then `).`. |
| `Handler.AddedMessageNamesId` | index.php:103 | The digits between the success message's prefix and suffix read back as the new id. |
| `Handler.ShowFlash` | index.php:171-177 | A message is shown iff it is set and not PHP-empty. A shown message is unset. An unshown one is kept. |
| `Handler.RenderPage` | index.php:171-205 | The page shows the list as it stands, with the error map and the submitted values. It shows the session's message iff it is set and not PHP-empty, and then unsets it; otherwise the flash stays as it was. The product list is untouched. |
| `Handler.FlashShownOnce` | index.php:171-177 | A second flash block right after the first shows nothing. |
| `Handler.Handle` | index.php:10-109 | Every request leaves the product list set and meeting the invariant. |
| `Handler.RedirectIffAccepted` | index.php:86-108 | A request redirects iff it is a POST whose cleaned fields all pass. |
| `Handler.AcceptedAppendsOne` | index.php:86-103 | An accepted POST appends one product at the end with the next id and the cleaned fields. Earlier products stay as they were. The flash is set to the success message naming that id. |
| `Handler.OtherwiseListUnchanged` | index.php:86-109 | Any request that does not redirect leaves the product list as seeded. The flash is only kept or unset. |
| `Handler.RefusedShowsErrors` | index.php:86-109 | A refused POST renders the page with its error map, the cleaned input and the unchanged list. |
| `Handler.ArrayFieldAborts` | index.php:55-66 | A request ends in the fatal error exactly when it is a POST whose cleaned name or description is an array. The error names `name` if the name is an array, else `description`, and the session is only seeded, with its flash kept unseen. |
| `Handler.PlainViewRenders` | index.php:171-205 | A request that is not a POST renders the page with no errors, no submitted values and the seeded list. The flash is what the flash block shows, and the session keeps what the block leaves. |
| `Handler.FlashNotShownTwice` | index.php:171-177 | When two pages render in a row, the second shows no flash. |
| `Handler.Run` | index.php:10-103 | After any sequence of requests, the session still meets the invariant. |
| `Handler.RunExtends` | index.php:99-100 | Over any sequence of requests, the earlier product list is a prefix of the later one. No product is removed or changed, and no id is reused. |
| `Handler.Session.constructor` | index.php:3 | A new session has neither key set. |
| `Handler.Session.SeedIfAbsent` | index.php:10-27 | The session state becomes `Seeded` of the old state. |
| `Handler.Session.TakeFlash` | index.php:171-177 | Returns and leaves what `ShowFlash` gives for the old flash. The product list is untouched and the session stays consistent. |
| `Handler.Session.AddProduct` | index.php:86-103 | Appends the product with id `NextId` of the old list and sets the success flash for that id. The invariant is kept. |
| `Handler.Session.HandleRequest` | index.php:28-109 | The new session state and the response equal `Handle` applied to the old state and the request. |

## Left out

- HTML output is not modelled, because it is presentation. This covers the Bootstrap markup, `e()`/`htmlspecialchars`, `old()` and `number_format`. The page response carries the data the template would show.
- The stored price is not computed. PHP stores `round((float) $price, 2)`, which is floating-point arithmetic. `Catalogue.Price` keeps the literal the float comes from.
- Validation.PriceMessages: "greater than 0" is decided on the literal's sign and digits, not on the float PHP computes. So a literal that underflows to 0.0, such as "1e-400", counts as positive here.
- PhpNumeric.DenotesPositive: decides "greater than 0" on the literal's sign and digits, not on the float PHP computes, so "1e-400" counts as positive here although it underflows to 0.0.
- Validation.PriceError: inherits both price limitations above and below, since its "greater than 0" rule is `DenotesPositive`.
- Validation.PriceMessages: the float cast's treatment of a leading form feed is not modelled; form feed survives `trim` and `is_numeric` accepts it, and the sign test ignores it.
- Catalogue.NextId: ids are unbounded integers, so PHP's switch to float past `PHP_INT_MAX` is not modelled.
- The redirect target is not modelled. `header('Location: ' . strtok(...))` and `exit` become a `Redirect` response with no URL, because the URL is I/O plumbing.
- `session_start`, `$_SERVER` and `$_POST` become the request value and the `Session` object. Session storage itself is not modelled.
- Strings are sequences of characters and `mb_strlen` is their length. Byte sequences that are not valid UTF-8 are not modelled.
- The items of an array-valued field are kept as a flat list of strings. Nested arrays are not distinguished, because no rule looks inside them.
- PHP 7 semantics are not modelled. There, `mb_strlen` on an array warns instead of throwing.
- Concurrent requests on one session are not modelled. Each request runs to completion, and the code has no concurrency.
