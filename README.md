# KK Jewellers storefront: a Dafny model of its client-side logic

This project models the logic in the storefront's React pages and contexts, written
as Dafny datatypes, functions, classes and lemmas, and proves what that logic does.
It covers:

- the product catalog (`src/data/products.ts`): eight products, each with an id, name,
  price in rupees, category, image, description and optional `featured` flag;
- the wishlist store (`src/context/WishlistContext.tsx`): a list of saved products that
  is loaded from local storage under `kkj-wishlist`, changed by add and remove, and
  written back after each change;
- the shop page (`src/pages/Shop.tsx`). It filters the catalog by category, material,
  price range and search query, and sorts a copy of the result by one of four keys;
- the filter panel (`src/components/ProductFilters.tsx`): the option lists, the
  category and material toggles, and the price slider's bounds;
- the product page (`src/pages/ProductDetail.tsx`): lookup by route id, the
  not-found view, the add-to-cart payload and up to four related products;
- the checkout page (`src/pages/Checkout.tsx`). It has the shipping form, payment
  selection, the empty-cart redirect and the processing flag. Submitting pushes one
  order onto the history stored under `kkj-orders` and clears the cart;
- the contact page (`src/pages/Contact.tsx`): the form schema, the inputs' `maxLength`
  caps, the field→message error map and the reset after a successful send;
- the sign-in and sign-up page (`src/pages/Auth.tsx`). Sign-up checks the passwords,
  mismatch first and then length. Both forms store a user record under `kkj-user`.

Shared pieces:

- `Text` models the JavaScript string operations the pages use: `toLowerCase`,
  `includes`, `trim`, and `localeCompare` on the digit-string ids.
- `Storage` models `localStorage` as a typed key-value object. A value read back is
  the value written.
- `Sequences` holds the subsequence relation. It is used to say that a filter
  keeps the original order.

State that the source updates in place is modelled as classes with `modifies`
clauses:

- the wishlist provider;
- the checkout page and its cart;
- the contact page;
- the auth page;
- the storage objects.

The pure expressions are modelled as functions. The `async` submit handlers run in
two steps:

1. The click sets the flag and keeps the values its closure captured (`pending`).
2. The timer's completion writes storage and clears the flag.

A class predicate `Valid` says that the flag is set exactly while a submission waits.

The browser's checks matter because they decide whether a submit handler runs at all:

- the `required` attribute on inputs, modelled as a non-empty test on those fields;
- the `disabled` submit button, modelled as a guard on the processing flag.

## Model

| member | source | states |
|---|---|---|
| Products.FindById | src/pages/ProductDetail.tsx:12 | `find` by id: a result exactly when some entry has the id; the result is the first list entry carrying that id |
| Products.CatalogIds | src/data/products.ts:16-85 | the catalog has eight products with ids "1" to "8", all distinct |
| Products.CatalogPrices | src/data/products.ts:16-85 | every catalog price lies strictly between 0 and the slider maximum 500000 |
| Products.CatalogFeatured | src/data/products.ts:16-85 | products 1–4 are marked featured and products 5–8 have no `featured` field |
| Products.CatalogCategories | src/data/products.ts:16-85 | products i and i+4 share a category and the first four categories are pairwise different |
| Products.FindDistinct | src/pages/ProductDetail.tsx:12 | in a list with distinct ids, looking up an entry's id returns that entry |
| Products.FindCatalogId | src/data/products.ts:16-85 | looking up any catalog product's id returns that product |
| Storage.KeyValueStore.GetItem | src/context/WishlistContext.tsx:16 | `getItem` returns a value exactly when the key is stored, and that value |
| Storage.KeyValueStore.SetItem | src/context/WishlistContext.tsx:21 | `setItem` replaces the value under the key and leaves every other key alone |
| Storage.KeyValueStore.constructor | src/context/WishlistContext.tsx:15-18 | the store starts as the given initial map |
| Wishlist.HasId | src/context/WishlistContext.tsx:36-38 | whether some saved entry carries the id, as `some(item.id === id)` tests |
| Wishlist.HasIdIff | src/context/WishlistContext.tsx:36-38 | `some(item.id === id)` holds exactly when an entry carries the id |
| Wishlist.Added | src/context/WishlistContext.tsx:25-29 | the `setWishlist` updater of `addToWishlist`: the list itself when an entry has the product's id, else the list with the product appended |
| Wishlist.AddedAbsent | src/context/WishlistContext.tsx:24-30 | adding a product whose id is absent appends it at the end, one longer |
| Wishlist.AddedPresent | src/context/WishlistContext.tsx:26-27 | adding a product whose id is present returns the list unchanged |
| Wishlist.AddedIdempotent | src/context/WishlistContext.tsx:24-30 | adding the same product twice equals adding it once |
| Wishlist.AddedMembership | src/context/WishlistContext.tsx:24-30 | after adding, an id is present exactly when it was present or is the added product's |
| Wishlist.AddedKeepsDistinct | src/context/WishlistContext.tsx:24-30 | adding keeps the ids pairwise distinct |
| Wishlist.Removed | src/context/WishlistContext.tsx:33 | the filter keeps order, drops every entry with the id and exactly those |
| Wishlist.RemovedMembership | src/context/WishlistContext.tsx:33 | after removing, an id is present exactly when it was present and is not the removed one |
| Wishlist.RemovedAbsent | src/context/WishlistContext.tsx:33 | removing an absent id leaves the list equal |
| Wishlist.CountIdDistinct | src/context/WishlistContext.tsx:24-30 | with distinct ids an id occurs at most once |
| Wishlist.RemovedKeepsDistinct | src/context/WishlistContext.tsx:32-34 | removing keeps ids distinct and shortens by one exactly when the id was present |
| Wishlist.AddThenRemove | src/context/WishlistContext.tsx:24-34 | removing a product just added under a fresh id restores the list |
| Wishlist.RemovedAppend | src/context/WishlistContext.tsx:33 | the filter distributes over concatenation |
| Wishlist.WishlistProvider.constructor | src/context/WishlistContext.tsx:15-22 | the state starts as the stored list or empty, and the effect writes it back |
| Wishlist.WishlistProvider.AddToWishlist | src/context/WishlistContext.tsx:20-30 | the new state is the add updater's result; storage holds it; distinct ids stay distinct |
| Wishlist.WishlistProvider.RemoveFromWishlist | src/context/WishlistContext.tsx:20-34 | the new state is the filter's result; storage holds it; distinct ids stay distinct |
| Wishlist.WishlistProvider.IsInWishlist | src/context/WishlistContext.tsx:36-38 | true exactly when some saved entry carries the id |
| Wishlist.WishlistProvider.WishlistCount | src/context/WishlistContext.tsx:40 | the count is the number of saved entries |
| ProductFilters.Without | src/components/ProductFilters.tsx:32 | the filter keeps order and every other option, drops all copies of the item, and is shorter by their number |
| ProductFilters.Toggle | src/components/ProductFilters.tsx:30-34 | the updater shared by both toggles: the selection without the option when it is selected, else with the option appended |
| ProductFilters.ToggleAbsent | src/components/ProductFilters.tsx:29-35 | toggling an unselected option appends it |
| ProductFilters.TogglePresent | src/components/ProductFilters.tsx:29-35 | toggling a selected option removes every copy and keeps the rest in order |
| ProductFilters.ToggleFlips | src/components/ProductFilters.tsx:29-35 | toggling flips that option's membership and leaves every other option's |
| ProductFilters.WithoutAppended | src/components/ProductFilters.tsx:32-33 | removing an option just appended restores the selection |
| ProductFilters.ToggleTwiceAbsent | src/components/ProductFilters.tsx:29-35 | toggling an unselected option twice restores the selection |
| ProductFilters.ToggleTwiceSelected | src/components/ProductFilters.tsx:29-35 | toggling a selected option twice drops every copy of it and appends it once at the end, the other options keeping their order |
| ProductFilters.ToggleNotSelfInverse | src/components/ProductFilters.tsx:29-35 | so a double toggle is not the identity: ["Rings", "Earrings"] becomes ["Earrings", "Rings"] |
| ProductFilters.ToggleCategory | src/components/ProductFilters.tsx:29-35 | only the category selection changes, by the toggle |
| ProductFilters.ToggleMaterial | src/components/ProductFilters.tsx:37-43 | only the material selection changes, by the toggle |
| ProductFilters.SlidePrice | src/components/ProductFilters.tsx:112-118 | the slider sets only the price range, to two values on its 0..500000 grid of step 5000 |
| ProductFilters.OptionLists | src/components/ProductFilters.tsx:17-18 | five distinct categories, five distinct materials; the default range is on the slider grid |
| Shop.InitialShopState | src/pages/Shop.tsx:13-17 | empty selections, range 0..500000, sort "newest", empty query |
| Shop.ApplySearchParam | src/pages/Shop.tsx:19-22 | a non-empty `search` parameter replaces the query; nothing else changes |
| Shop.ResetFilters | src/pages/Shop.tsx:24-28 | reset clears both selections and the range and keeps sort and query |
| Shop.CategoryTest | src/pages/Shop.tsx:31-32 | `matchesCategory`: no category selected, or some selection lower-cased occurs in the lower-cased category |
| Shop.MaterialTest | src/pages/Shop.tsx:34-35 | `matchesMaterial` on a product's optional material: no material selected, or the material is present and some selection occurs in it |
| Shop.PriceTest | src/pages/Shop.tsx:37 | `matchesPrice`: the price lies in the range, both ends included |
| Shop.SearchTest | src/pages/Shop.tsx:39-41 | `matchesSearch`: an empty query, or the lower-cased query occurs in the lower-cased name or description |
| Shop.Matches | src/pages/Shop.tsx:30-43 | the filter's predicate: the four tests together, the material test seeing no material |
| Shop.SomeIncludedIff | src/pages/Shop.tsx:32 | `some(includes)` holds exactly when a lower-cased selection occurs in the text |
| Shop.FilteredProducts | src/pages/Shop.tsx:30-44 | the result keeps catalog order, holds only matching products and every matching one |
| Shop.FilteredCounts | src/pages/Shop.tsx:30-44 | each matching product appears in the result as often as in the catalog, every other product not at all |
| Shop.MatchesIff | src/pages/Shop.tsx:30-44 | the four tests written out with explicit occurrence positions, price inclusive at both ends |
| Shop.MaterialSelectionEmpties | src/pages/Shop.tsx:34-35 | products carry no material, so any material selection shows nothing |
| Shop.RingsSelectsEarrings | src/pages/Shop.tsx:31-32 | selecting "Rings" also matches earrings, since "rings" occurs in "earrings" |
| Shop.CategoryNoEarlyS | src/pages/Shop.tsx:31-32 | in each lower-cased category name an 's' appears only in the last three characters |
| Shop.SetsSelectsNothing | src/pages/Shop.tsx:31-32 | selecting "Sets" alone matches no product category |
| Shop.FilteredAllMatch | src/pages/Shop.tsx:30-44 | when every product matches, the filter returns the list unchanged |
| Shop.ResetShowsCatalog | src/pages/Shop.tsx:24-44 | after a reset with an empty query the whole catalog is shown |
| Shop.Compare | src/pages/Shop.tsx:47-60 | the sort comparator for each key: price difference either way, reversed id order, featured flag difference, or 0 |
| Shop.Insert | src/pages/Shop.tsx:47 | one step of the insertion sort: the product goes in front of the first product it does not compare after |
| Shop.SortProducts | src/pages/Shop.tsx:47 | insertion sort of a copy of the list by the comparator, each product inserted into the sorted rest, standing in for the stable `Array.prototype.sort` |
| Shop.SortedProducts | src/pages/Shop.tsx:47-60 | `sortedProducts`: the filtered products sorted by the selected key |
| Shop.CompareAntisymmetric | src/pages/Shop.tsx:47-60 | swapping the arguments of the comparator negates it |
| Shop.CompareTransitive | src/pages/Shop.tsx:47-60 | the comparator's "not after" is transitive |
| Shop.CompareTies | src/pages/Shop.tsx:47-60 | two products tied with a third are tied with each other |
| Shop.InsertPermutes | src/pages/Shop.tsx:47 | one insertion step adds exactly that product |
| Shop.SortPermutes | src/pages/Shop.tsx:47 | the sorted copy is a permutation of the filtered list |
| Shop.InsertSorted | src/pages/Shop.tsx:47-60 | inserting into a sorted list keeps it sorted |
| Shop.SortSorted | src/pages/Shop.tsx:47-60 | the sorted copy is ordered by the comparator |
| Shop.SortedPairwise | src/pages/Shop.tsx:47-60 | in a sorted list every earlier product compares not after every later one |
| Shop.InsertTies | src/pages/Shop.tsx:47 | inserting keeps the relative order of the products tied with any given one |
| Shop.SortStable | src/pages/Shop.tsx:47 | the sort is stable: products that compare equal keep their order |
| Shop.PriceLowAscending | src/pages/Shop.tsx:49-50 | "price-low" orders by ascending price |
| Shop.PriceHighDescending | src/pages/Shop.tsx:51-52 | "price-high" orders by descending price |
| Shop.NewestDescending | src/pages/Shop.tsx:53-54 | "newest" orders ids in descending string order |
| Shop.InsertNotFeatured | src/pages/Shop.tsx:55-56 | an unfeatured product is inserted after the featured block and before the unfeatured ones |
| Shop.FeaturedOnlyAll | src/pages/Shop.tsx:55-56 | the featured part holds only featured products, the rest only unfeatured ones |
| Shop.BestSellersPartition | src/pages/Shop.tsx:55-56 | "best-sellers" puts the featured products first and the rest after, each part in its original order |
| Shop.OtherKeyKeepsOrder | src/pages/Shop.tsx:57-58 | any other sort key leaves the order unchanged |
| Shop.ShownProducts | src/pages/Shop.tsx:30-60 | what is shown is a permutation of the filtered products, all matching catalog products, sorted by the key |
| ProductDetail.SameCategoryOthers | src/pages/ProductDetail.tsx:40-41 | the filter keeps catalog order, holds only products of the same category with another id, and all of them |
| ProductDetail.SameCategoryCounts | src/pages/ProductDetail.tsx:40-41 | each product of the same category with another id appears as often as in the catalog, every other product not at all |
| ProductDetail.RelatedProducts | src/pages/ProductDetail.tsx:40-42 | `relatedProducts`: the first four products of the same category with another id |
| ProductDetail.RelatedSpec | src/pages/ProductDetail.tsx:40-42 | at most four related products, all from the same category and none the product itself, a prefix of the matches in catalog order, and all of them when there are four or fewer |
| ProductDetail.PairedRelated | src/pages/ProductDetail.tsx:40-41 | in eight products with distinct ids, paired by category four apart with the first four categories distinct, each product's only related product is its pair |
| ProductDetail.SingleSameCategory | src/pages/ProductDetail.tsx:40-41 | when exactly one entry qualifies, the filter returns just that entry |
| ProductDetail.DetailPage | src/pages/ProductDetail.tsx:12-42 | the page is found exactly when the route id is given and some catalog product has it; then it shows that product and its related products |
| ProductDetail.AddToCartArgument | src/pages/ProductDetail.tsx:27-28 | `handleAddToCart` hands the product being shown to `addToCart` |
| ProductDetail.AddToCartPassesProduct | src/pages/ProductDetail.tsx:27-30 | the cart receives the catalog product whose id is the route id |
| ProductDetail.CatalogRelated | src/pages/ProductDetail.tsx:40-42 | in the catalog each product's only related product is the one four places away |
| ProductDetail.PageWithOneRelated | src/pages/ProductDetail.tsx:12-42 | with distinct ids, a product with exactly one same-category product gets a page showing it and that one |
| ProductDetail.CatalogPages | src/pages/ProductDetail.tsx:12-42 | every catalog product's page shows it with exactly one related product |
| Checkout.PaymentCode | src/pages/Checkout.tsx:95-146 | each button stores one of "card", "paypal", "bank", "payoneer" |
| Checkout.PaymentCodeInjective | src/pages/Checkout.tsx:95-146 | different buttons store different codes |
| Checkout.InitialFormEmpty | src/pages/Checkout.tsx:16-24 | every text field starts empty and the payment method starts as "card" |
| Checkout.WithField | src/pages/Checkout.tsx:34-39 | an input event sets the field it names and leaves every other field and the payment method |
| Checkout.WithPaymentMethod | src/pages/Checkout.tsx:95-146 | a payment button sets the method and leaves every text field |
| Checkout.WithFieldCommutes | src/pages/Checkout.tsx:34-39 | edits of different fields commute; a second edit of the same field wins |
| Checkout.RequiredFieldsFilled | src/pages/Checkout.tsx:155-219 | the `required` inputs: name, email, phone, address, city and pincode are all non-empty |
| Checkout.LoadOrders | src/pages/Checkout.tsx:57 | a missing history reads as the empty list; a stored one as itself |
| Checkout.AppendOrder | src/pages/Checkout.tsx:57-59 | the new history is one longer, keeps every earlier order, and ends with the new one |
| Checkout.AppendTwice | src/pages/Checkout.tsx:57-59 | two submissions keep both orders after the earlier history, in submission order |
| Checkout.Cart.constructor | src/pages/Checkout.tsx:12 | the cart holds the given items |
| Checkout.Cart.ClearCart | src/pages/Checkout.tsx:61 | clearing leaves the cart empty |
| Checkout.CheckoutPage.constructor | src/pages/Checkout.tsx:14-24 | the form starts as the initial form and the page is not processing |
| Checkout.CheckoutPage.View | src/pages/Checkout.tsx:74-77 | the page redirects to the cart exactly when the cart is empty; otherwise it shows the form with the processing flag |
| Checkout.CheckoutPage.InputChange | src/pages/Checkout.tsx:34-39 | the form becomes the input event's update; the flag and the pending submission stay |
| Checkout.CheckoutPage.SelectPayment | src/pages/Checkout.tsx:95-146 | the form becomes the payment button's update; the flag and the pending submission stay |
| Checkout.CheckoutPage.Submit | src/pages/Checkout.tsx:41-77 | a submission starts exactly when not processing, the cart is non-empty and every required field is filled; it sets the flag and captures form, cart and total |
| Checkout.CheckoutPage.CompleteOrder | src/pages/Checkout.tsx:49-62 | the stored history gains the order built from the captured values; the cart is cleared; the flag drops |
| Checkout.PlaceOrder | src/pages/Checkout.tsx:41-77 | from an idle page an order is placed exactly when the cart is non-empty and every required field is non-empty (the email format check aside); the history then ends with that order and the cart is empty; otherwise nothing is stored or cleared |
| Text.Lower | src/pages/Shop.tsx:32 | `toLowerCase`: the same length, each ASCII capital replaced by its small letter |
| Text.Includes | src/pages/Shop.tsx:32 | `includes`: the substring starts at the front or occurs in the rest |
| Text.TrimStart | src/pages/Contact.tsx:11-14 | the leading white-space run goes: a suffix of the input, starting with a non-white-space character, after only white space |
| Text.TrimEnd | src/pages/Contact.tsx:11-14 | the trailing white-space run goes: a prefix of the input, ending with a non-white-space character, followed by only white space |
| Text.Trim | src/pages/Contact.tsx:11-14 | the trimmed string occurs in the original and has no white space at either end |
| Text.TrimIsMiddle | src/pages/Contact.tsx:11-14 | the trimmed string is the slice of the original between a leading and a trailing run of white space, so only those runs are removed |
| Text.TrimShorter | src/pages/Contact.tsx:11-14 | trimming never makes a string longer |
| Text.TrimUnchanged | src/pages/Contact.tsx:11-14 | a string with no white space at either end trims to itself |
| Text.TrimSpaces | src/pages/Contact.tsx:11-14 | a space on each side of such a string is removed by trimming |
| Text.TrimEmptyIff | src/pages/Contact.tsx:11-14 | a string trims to "" exactly when it is all white space |
| Text.TrimIdempotent | src/pages/Contact.tsx:11-14 | trimming twice equals trimming once |
| Text.IncludesAt | src/pages/Shop.tsx:32-41 | `includes` holds exactly when the substring occurs at some position |
| Text.NotIncludedWithoutFirstChar | src/pages/Shop.tsx:32 | a substring whose first character appears nowhere it could start does not occur |
| Text.CompareStrings | src/pages/Shop.tsx:54 | the comparison result is -1, 0 or 1 |
| Text.CompareStringsZeroIffEqual | src/pages/Shop.tsx:54 | the comparison is 0 exactly for equal strings |
| Text.CompareStringsAntisymmetric | src/pages/Shop.tsx:54 | swapping the arguments negates the comparison |
| Text.CompareStringsTransitive | src/pages/Shop.tsx:54 | the string order is transitive |
| Contact.WithField | src/pages/Contact.tsx:26-31 | an input event sets the field it names and leaves the others |
| Contact.NameIssues | src/pages/Contact.tsx:11 | the name rule: "Name must be at least 2 characters" under 2 trimmed characters, "Name too long" over 100 |
| Contact.EmailIssues | src/pages/Contact.tsx:12 | the email rule: the address message when the trimmed value is no address, then the length message over 255 characters; both can appear |
| Contact.PhonePattern | src/pages/Contact.tsx:13 | `^\+?[1-9]\d{9,14}$`: an optional plus, then a non-zero digit and nine to fourteen more digits |
| Contact.PhoneIssues | src/pages/Contact.tsx:13 | the phone rule: no issue when the trimmed value matches or the raw value is "", else the pattern's message |
| Contact.MessageIssues | src/pages/Contact.tsx:14 | the message rule: the short message under 10 trimmed characters, the long one over 2000 |
| Contact.Issues | src/pages/Contact.tsx:10-15 | `error.errors`: the issues of the four fields in schema order |
| Contact.NameValidIff | src/pages/Contact.tsx:11 | the name passes exactly when its trimmed length is between 2 and 100 |
| Contact.EmailValidIff | src/pages/Contact.tsx:12 | the email passes exactly when the trimmed value satisfies the address predicate and has at most 255 characters |
| Contact.MessageValidIff | src/pages/Contact.tsx:14 | the message passes exactly when its trimmed length is between 10 and 2000 |
| Contact.PhonePatternEdges | src/pages/Contact.tsx:13 | a string matching the phone pattern has no white space at either end |
| Contact.PhoneIssuesField | src/pages/Contact.tsx:13 | the phone rule reports at most one issue, about the phone |
| Contact.PhoneIssuesOnPhone | src/pages/Contact.tsx:13 | every phone issue is about the phone |
| Contact.EmailIssuesOnEmail | src/pages/Contact.tsx:12 | every email issue is about the email |
| Contact.MessageIssuesField | src/pages/Contact.tsx:14 | the message rule reports at most one issue, about the message |
| Contact.PhoneMatchAccepted | src/pages/Contact.tsx:13 | a value matching the pattern passes the phone rule |
| Contact.PhoneSampleAccepted | src/pages/Contact.tsx:13 | the sample number in the message matches the pattern |
| Contact.PhoneSpacesTrimmed | src/pages/Contact.tsx:13 | a matching number with a space on each side passes, since trimming comes before the pattern |
| Contact.PhoneBlankRejected | src/pages/Contact.tsx:13 | the empty phone passes; a non-empty all-white-space one is rejected with the pattern's message |
| Contact.PhoneLeadingZeroRejected | src/pages/Contact.tsx:13 | a value starting with 0 and not ending in white space is rejected |
| Contact.PhoneTooShortRejected | src/pages/Contact.tsx:13 | a value of fewer than ten characters without edge white space is rejected |
| Contact.IssuesEmptyIff | src/pages/Contact.tsx:10-15 | a form has no issues exactly when each of the four fields passes its rule |
| Contact.MaxLength | src/pages/Contact.tsx:144-186 | the name input is capped at 100 characters, the message input at 2000, the others not at all |
| Contact.Capped | src/pages/Contact.tsx:144-186 | what the browser lets into an input is the first characters of what was typed, no more than the cap, and all of it when within the cap |
| Contact.CappedEditWithinCaps | src/pages/Contact.tsx:26-31 | a capped input event keeps the name within 100 and the message within 2000 characters |
| Contact.CappedNameIssues | src/pages/Contact.tsx:11 | a name of at most 100 characters can only be reported as too short |
| Contact.CappedMessageIssues | src/pages/Contact.tsx:14 | a message of at most 2000 characters can only be reported as too short |
| Contact.CapsRuleOutTooLong | src/pages/Contact.tsx:10-15 | for a form within the caps, "Name too long" and the long-message issue never arise |
| Contact.FieldErrors | src/pages/Contact.tsx:50-53 | the `forEach` over the issues as a fold: each issue's message is written under its field, later ones overwriting |
| Contact.FieldErrorsKeys | src/pages/Contact.tsx:50-53 | the map has a key exactly for each field with an issue |
| Contact.FieldErrorsLastWins | src/pages/Contact.tsx:50-53 | a field's entry holds the message of the last issue about that field |
| Contact.FieldErrorsUnaffected | src/pages/Contact.tsx:50-53 | later issues about other fields leave a field's entry alone |
| Contact.LastIssueKept | src/pages/Contact.tsx:50-53 | an issue followed by none about its field is the message kept |
| Contact.CollectFieldErrors | src/pages/Contact.tsx:50-53 | the `forEach` loop builds exactly the error map |
| Contact.LaterIssuesNotEmail | src/pages/Contact.tsx:13-14 | no phone or message issue is about the email |
| Contact.EmailLastMessageWins | src/pages/Contact.tsx:12-53 | a malformed over-long email keeps only the length message |
| Contact.RequiredFieldsFilled | src/pages/Contact.tsx:142-183 | the `required` inputs: name, email and message are non-empty |
| Contact.ContactPage.constructor | src/pages/Contact.tsx:18-24 | the form starts empty, within the caps, and there are no errors |
| Contact.ContactPage.InputChange | src/pages/Contact.tsx:26-31 | the form becomes the input event's update with the value cut to the input's `maxLength`; the form stays within the caps; errors stay |
| Contact.ContactPage.Submit | src/pages/Contact.tsx:33-58 | a blocked form changes nothing; a valid one resets to four empty strings with no errors; the form stays within the caps; an invalid one keeps the form, sets the error map and toasts the first issue |
| Auth.CheckSignUp | src/pages/Auth.tsx:51-59 | the two guards of `handleSignUp` in order: "Passwords don't match" first, then the length message under six characters |
| Auth.SignInRecord | src/pages/Auth.tsx:35-38 | the stored sign-in record: the email and the time |
| Auth.SignUpRecord | src/pages/Auth.tsx:66-71 | the stored sign-up record: name, email, phone and the time |
| Auth.SignUpAcceptedIff | src/pages/Auth.tsx:51-59 | sign-up passes exactly when the passwords agree and have at least six characters; a failure carries one of the two messages |
| Auth.MismatchReportedFirst | src/pages/Auth.tsx:51-54 | mismatched passwords report "Passwords don't match" whatever their length |
| Auth.ShortPasswordRejected | src/pages/Auth.tsx:56-59 | matching passwords under six characters report the length message |
| Auth.PasswordBoundary | src/pages/Auth.tsx:51-59 | five characters fail, six pass, a short mismatch reports the mismatch |
| Auth.RecordsIgnorePasswords | src/pages/Auth.tsx:35-71 | the stored records never depend on a password |
| Auth.AuthPage.constructor | src/pages/Auth.tsx:13-26 | both forms start empty and the page is not loading |
| Auth.AuthPage.EditSignIn | src/pages/Auth.tsx:105-118 | an input replaces the sign-in form; nothing else changes |
| Auth.AuthPage.EditSignUp | src/pages/Auth.tsx:150-207 | an input replaces the sign-up form; nothing else changes |
| Auth.AuthPage.SubmitSignIn | src/pages/Auth.tsx:28-33 | sign-in starts exactly when idle and both fields are filled, with no credential check; it captures the form |
| Auth.AuthPage.SubmitSignUp | src/pages/Auth.tsx:48-64 | a filled form on an idle page is rejected with the check's message or started; a rejection leaves the flag and stores nothing |
| Auth.AuthPage.CompleteSubmission | src/pages/Auth.tsx:35-77 | the user record built from the captured form replaces the stored user; the flag drops |
| Auth.SignUp | src/pages/Auth.tsx:48-79 | from an idle page a user is stored exactly when every required field is non-empty (the email format check aside) and the password checks pass; the record is name, email, phone and time; otherwise storage is unchanged |

## Left out

- Rendering, styling, routing, navigation and toasts. Toasts are only outcomes here: the contact page's rejection message is returned.
- The cart engine: `src/context/CartContext.tsx` is not part of this model. The cart is a list of items that checkout can clear, and `cartTotal` is a number supplied at submission. Adding to the cart is modelled only as the product passed to it.
- Timers, `Date.now()` and `new Date().toISOString()`: ids and timestamps are parameters. The two-step click/completion split stands in for the awaited timeout.
- Contact.ContactPage.Submit: the reset after the 1-second wait is applied at once. Edits made during that wait, and a second submission started during it, are not modelled.
- JSON serialisation: storage holds typed values, so malformed or foreign data under a key (which would make `JSON.parse` throw) is not modelled. The wishlist model does not treat an empty stored string as absent.
- Checkout.CheckoutPage.Submit and Contact.ContactPage.Submit: the browser's format check on `type="email"` inputs is not modelled. Only the `required` non-empty check is.
- Auth.AuthPage.SubmitSignIn and Auth.AuthPage.SubmitSignUp: the same applies, the email-format check of the sign-in and sign-up email inputs is left out.
- Checkout.PlaceOrder: built on the submit above, so it places an order for a filled form whose email the browser's `type="email"` check would block (for example "abc").
- Auth.SignUp: likewise, it stores a user for a filled form whose email the browser's `type="email"` check would block.
- Contact.EmailValidIff: zod's `.email()` address check is an abstract predicate passed in (`isEmail`).
- zod's internal issue ordering is taken as schema field order, then check order within a field.
- String lengths are counted in Unicode characters. JavaScript counts UTF-16 code units, which differ for characters outside the Basic Multilingual Plane. This affects the name, message, email and password length limits.
- `toLowerCase` is modelled for ASCII letters only. `trim` uses the JavaScript white-space and line-terminator set.
- Shop.NewestDescending: `localeCompare` is modelled as plain character-code order, which agrees with the locale order on the digit-string ids the catalog uses.
- `formatPrice` (Intl currency formatting) and the `Product` type in `src/types/product.ts` are not part of this model.
- The pages `Home`, `About`, `Partner`, `Cart`, `Wishlist` and `Admin`, and the components `Navbar`, `Footer`, `FeaturedCollections`, `AdPlaceholder` and `ProductCard`, are not part of this model.
- Wishlist.WishlistProvider.AddToWishlist and Wishlist.WishlistProvider.RemoveFromWishlist: distinct ids are preserved only when the loaded list already had them, because stored data is not checked on load.
- ProductFilters.SlidePrice: the slider component's own clamping and ordering are a precondition here, not modelled behaviour.
