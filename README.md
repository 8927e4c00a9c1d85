# Sakura Arcade front end — a verified model of its decision logic

Sakura Arcade is a game-rental web shop. Its React front end mostly renders markup and
calls the backend. Between those calls sit a few small rules, and this project models
them in Dafny and proves what they promise:

- the rental price (duration discount tiers, then rounding to cents);
- the free-redemption rule of the full subscription (at most three free titles);
- which rental kind and term the details page asks the backend for;
- the purchase balance check;
- the deposit amount cleaner, its guards and its live formatter;
- the days-until-return and overdue rule of the rents page;
- the favourites list;
- the phone and CPF masks, user normalisation, statistics and search of the admin users page;
- the e-mail pattern and the sign-in, sign-up and admin user form validators;
- the library and catalog filter pipelines and counters;
- the rent lookup of the game grid;
- the create-game and edit-field guards;
- the sidebar's first/last name split;
- the rent-return id check and error message.

Conventions used throughout:

- **Money** is an exact `real`. `Math.round(x * 100) / 100` is `Floor(x * 100 + 1/2) / 100`.
- **Dates** are integer milliseconds, and the caller supplies "now".
- **JavaScript values** are the `Js.JsVal` datatype, with `Num = NaN | Fin(real)`.
  - `Js.Truthy` models truthiness.
  - `Js.StrictEq` models `===`: NaN equals nothing.
  - `Js.ToNumber` models `Number(x)`, reading decimal literals.
  - `Js.CoerceStringId` models the pages' repeated `typeof id === 'string' ? Number(id) : id`.
- **Strings** are `seq<char>`, with these conventions:
  - `trim` removes a fixed set of blank characters;
  - `toLowerCase` only maps `A`–`Z`;
  - `includes` is contiguous-slice containment;
  - `split`/`join`/`replace` follow their JavaScript meaning for a one-character pattern.
- **Form validators** (Users, Register and Login) build their error object in place. They are methods that fill a `map` key by key and then compare its size with zero, so each is a method with loop-free steps:
  - a per-field rule function (`UserFieldError`, `Register.FieldError`, `Login.FieldError`) is the specification;
  - a rank-indexed step lemma `PutNext` carries the invariant "the map holds exactly the errors of the fields checked so far".
- **Favourites list** is a class whose `favorites` field the methods reassign. Each method is tied to a function of the old list (`Added`, `Removed`, `Toggled`), and the lemmas are proved about those functions.
- **Create-game form** is a class whose `uuid` field `HandleSubmit` writes in place.

The price of 10 per day for 30 days is 210.00 (10 × 30 × 0.7), as
`FrontEnd/src/utils/priceCalculator.js` computes it (`PriceCalculator.UnitThirtyDaysAtTen`,
`GameDetails.CatalogPriceValue`).

Some proved facts show behaviour a reader of the pages might not expect:

- **Free slot with a priced title.** A priced title during a free redemption still opens the purchase modal at its own price. Yet the confirmed purchase asks the backend for a free redemption (`GameDetails.PricedTitleUnderFreeSlot`).
- **Tiny deposit.** A deposit of `0.004` enables the button but is refused after rounding (`Deposit.TinyAmountRejected`).
- **Null user flag.** A user whose `isActive` is `null` is shown as active but counted as inactive (`Users.NullFlagShownActiveCountedInactive`).
- **String rent ids in the grid.** The grid coerces the title's id to a number but compares it strictly against the rents' raw game ids. A rent whose game id arrives as a string is never found (`GameGrid.StringRentIdsNeverMatch`).
- **Falsy field values.** Saving a falsy field (such as a price of 0) unchanged in the field editor sends the empty text back (`EditField.FalsyFieldSentEmpty`).

## Model

| member | source | states |
|---|---|---|
| PriceCalculator.RoundCents | FrontEnd/src/utils/priceCalculator.js:18 | the result is whole cents, lies within half a cent of the input (halves round up), and is non-negative for a non-negative input |
| PriceCalculator.Multiplier | FrontEnd/src/utils/priceCalculator.js:10-16 | exactly one factor applies: 0.7 iff days ≥ 30, 0.85 iff 14 ≤ days < 30, 0.9 iff 7 ≤ days < 14, none (1.0) iff days < 7 |
| PriceCalculator.CalculateRentalPrice | FrontEnd/src/utils/priceCalculator.js:1-19 | "assinatura" gives the monthly price (default 50.0) whatever the base and days; any other kind gives base × days × the tier factor rounded to cents, always whole cents, non-negative for non-negative inputs |
| PriceCalculator.RoundCentsOfCents | FrontEnd/src/utils/priceCalculator.js:18 | rounding a price that is already whole cents leaves it unchanged |
| PriceCalculator.UnitThirtyDaysAtTen | FrontEnd/src/utils/priceCalculator.js:8-18 | "unitario" at 10 per day for 30 days costs 210.00 |
| GameDetails.FreeGamesCount | FrontEnd/src/pages/GameDetails.jsx:43-45 | under the full subscription the count is the number of active rents of kind 'assinatura' (never more than the rents); otherwise, or with no rents loaded, it is 0 |
| GameDetails.CanRescueMeansFewerThanThreeSubscriptionRents | FrontEnd/src/pages/GameDetails.jsx:43-46 | a free slot is left iff the user has the full subscription and fewer than 3 active subscription rents |
| GameDetails.CatalogPriceValue | FrontEnd/src/pages/GameDetails.jsx:77-81 | the price of an unpriced title for the standard term is 210.00 |
| GameDetails.RentalPrice | FrontEnd/src/pages/GameDetails.jsx:57-91 | 0 with no title; for a priced title 0 when a free slot is left, else the title's price; for an unpriced title 0 when a free slot is left, else 210.00 |
| GameDetails.BackendChoice | FrontEnd/src/pages/GameDetails.jsx:228-242 | the backend kind is 'assinatura' with no term iff a free slot is left; otherwise it is 'unitario' with 30 days |
| GameDetails.FreeIffRedemption | FrontEnd/src/pages/GameDetails.jsx:57-91 | for a loaded title the rental price is 0 iff the backend is asked for a free redemption |
| GameDetails.PriceToPay | FrontEnd/src/pages/GameDetails.jsx:184 | the rental price if positive, else the title's price if positive, else 0; positive iff either is positive |
| GameDetails.HandleRent | FrontEnd/src/pages/GameDetails.jsx:167-242 | the guards refuse non-clients, then a missing title or id, then a missing user ("Usuário não autenticado"), in that order; past them, a non-admin with an amount to pay gets the purchase modal at that amount, an admin gets a free-redemption request with no term, and a non-admin with nothing to pay gets the backend choice request, which is then a redemption |
| GameDetails.HandleConfirmPurchase | FrontEnd/src/pages/GameDetails.jsx:285-304 | nothing is sent without a title, id or user; otherwise the request is the same backend choice as the rent handler's |
| GameDetails.PricedTitleUnderFreeSlot | FrontEnd/src/pages/GameDetails.jsx:184-189 | a priced title with a free slot left has rental price 0, yet opens the purchase modal at the title's price, and its confirmed purchase asks for a free redemption |
| PurchaseConfirm.View | FrontEnd/src/components/wallet/PurchaseConfirmModal.jsx:19-65 | nothing renders iff the price is ≤ 0 or the modal is hidden; new balance = wallet − price; enough balance iff new balance ≥ 0; difference = −new balance, positive iff the balance is short; confirm is enabled iff not processing and wallet ≥ price |
| PurchaseConfirm.ConfirmKeepsWalletNonNegative | FrontEnd/src/components/wallet/PurchaseConfirmModal.jsx:244 | when confirm is enabled the balance after paying is between 0 and the current wallet |
| Deposit.CleanAmount | FrontEnd/src/components/wallet/DepositModal.jsx:21 | the cleaned text holds only digits and '.', and keeps the digits of the trimmed input in order |
| Deposit.HandleDeposit | FrontEnd/src/components/wallet/DepositModal.jsx:15-40 | without a user the deposit is refused as unauthenticated; with one the outcome is the guards applied to the cleaned text |
| Deposit.Guard | FrontEnd/src/components/wallet/DepositModal.jsx:23-40 | empty or '.' text is refused first; a deposit is accepted iff the text parses to a number whose rounding to cents is positive; the amount sent is that rounding, positive and whole cents |
| Deposit.FormatAmount | FrontEnd/src/components/wallet/DepositModal.jsx:80-88 | the output has at most one '.', only digits, ',' and '.', and the input's digits in their order |
| Deposit.FormatJoinedParts | FrontEnd/src/components/wallet/DepositModal.jsx:83-86 | when there are several '.', joining the pieces after the first leaves exactly one '.', keeps the digits and adds no other character |
| Deposit.DepositValue | FrontEnd/src/components/wallet/DepositModal.jsx:91-94 | the preview value is 0 for empty or '.' text and never negative |
| Deposit.CleanedParsesNonNegative | FrontEnd/src/components/wallet/DepositModal.jsx:91-94 | cleaned text has no sign, so it never parses to a negative number |
| Deposit.PreviewBalance | FrontEnd/src/components/wallet/DepositModal.jsx:90-95 | the preview balance is at least the current wallet (0 when absent) |
| Deposit.DepositEnabled | FrontEnd/src/components/wallet/DepositModal.jsx:186 | the deposit button is enabled iff no deposit is being submitted and the preview value is positive |
| Deposit.AcceptedDepositWasEnabled | FrontEnd/src/components/wallet/DepositModal.jsx:23-40 | an amount the guards accept was typed with the button enabled; the amount sent equals the cent rounding of the preview value, hence lies within half a cent of it on both sides |
| Deposit.TinyAmountRejected | FrontEnd/src/components/wallet/DepositModal.jsx:35-40 | 0.004 enables the button yet is refused with "O valor deve ser maior que zero" |
| Rents.CeilDays | FrontEnd/src/pages/Rents.jsx:98 | the day count d is the ceiling of the millisecond difference over a day: (d − 1) days < diff ≤ d days |
| Rents.DaysUntilReturn | FrontEnd/src/pages/Rents.jsx:93-100 | null iff there is no expected date; otherwise the ceiling of the days between now and the expected date |
| Rents.NegativeDaysIffDayPast | FrontEnd/src/pages/Rents.jsx:93-105 | the day count is present and negative iff there is an expected date at least one whole day before now |
| Rents.IsOverdue | FrontEnd/src/pages/Rents.jsx:102-105 | a rent is overdue iff it has an expected date at least one whole day before now |
| Rents.NoDateNeverOverdue | FrontEnd/src/pages/Rents.jsx:102-105 | a rent without an expected date is never overdue |
| Rents.DueNotOverdue | FrontEnd/src/pages/Rents.jsx:102-105 | an expected date less than a day ago is not overdue |
| Rents.FindGame | FrontEnd/src/pages/Rents.jsx:86-89 | the index of the first title whose coerced id strictly equals the rent's game id, or none when no title matches |
| Rents.GetGameTitle | FrontEnd/src/pages/Rents.jsx:85-91 | the first matching title's title when it is non-empty; "Jogo #" and the game id when the titles are not loaded, when no title matches, or when the first match has an empty title |
| Rents.FirstMatchDecides | FrontEnd/src/pages/Rents.jsx:85-91 | when the first match has an empty title the fallback is shown even though a later match has a title |
| Rents.StringIdMatchesNumber | FrontEnd/src/pages/Rents.jsx:87-88 | a title with string id "7" is found for the numeric game id 7 |
| Rents.HasFine | FrontEnd/src/pages/Rents.jsx:165 | a rent has a fine iff its days overdue is present and positive (0 is falsy and gives no fine) |
| Rents.Card | FrontEnd/src/pages/Rents.jsx:161-165 | a rent card is overdue iff the expected date is a whole day past, with a negative day count; it has a fine iff days overdue is present and positive |
| Favorites.FavoritesStore.constructor | FrontEnd/src/contexts/FavoritesContext.jsx:8 | the list starts empty |
| Favorites.FavoritesStore.IsFavorite | FrontEnd/src/contexts/FavoritesContext.jsx:44-46 | a uuid is a favourite iff it occurs in the list |
| Favorites.FavoritesStore.AddFavorite | FrontEnd/src/contexts/FavoritesContext.jsx:34-38 | the list becomes the add of the old list |
| Favorites.FavoritesStore.RemoveFavorite | FrontEnd/src/contexts/FavoritesContext.jsx:40-42 | the list becomes the removal from the old list |
| Favorites.FavoritesStore.ToggleFavorite | FrontEnd/src/contexts/FavoritesContext.jsx:48-54 | the list becomes the toggle of the old list |
| Favorites.AddedMembers | FrontEnd/src/contexts/FavoritesContext.jsx:34-38 | adding a present uuid changes nothing; adding an absent one appends it at the end; membership gains exactly that uuid |
| Favorites.RemovedMembers | FrontEnd/src/contexts/FavoritesContext.jsx:40-42 | after removal the uuid is absent, other uuids keep their membership, and the result is an order-preserving sub-list |
| Favorites.ToggleFlips | FrontEnd/src/contexts/FavoritesContext.jsx:48-54 | toggling flips the uuid's membership and keeps every other uuid's |
| Favorites.ToggleTwiceRestores | FrontEnd/src/contexts/FavoritesContext.jsx:48-54 | toggling an absent uuid twice restores the list exactly |
| Favorites.AddedNoDup | FrontEnd/src/contexts/FavoritesContext.jsx:34-38 | adding keeps a duplicate-free list duplicate-free |
| Favorites.ToggledNoDup | FrontEnd/src/contexts/FavoritesContext.jsx:48-54 | toggling keeps a duplicate-free list duplicate-free |
| Favorites.ApplyAllNoDup | FrontEnd/src/contexts/FavoritesContext.jsx:34-54 | any sequence of adds, removes and toggles keeps a duplicate-free list duplicate-free |
| Email.IsValidEmail | FrontEnd/src/utils/helpers.js:34-37 | the e-mail test; `Email.ValidIffRegex` proves it accepts exactly the strings the pattern matches |
| Email.ValidShape | FrontEnd/src/utils/helpers.js:34-37 | an accepted address has exactly one '@', no blank, and does not start with '@' |
| Email.ValidIffRegex | FrontEnd/src/utils/helpers.js:35 | the predicate accepts exactly the strings of the form a@b.c with a, b, c non-empty, blank-free and '@'-free |
| Email.ValidMatches | FrontEnd/src/utils/helpers.js:35 | every accepted address has the a@b.c form |
| Email.MatchesValid | FrontEnd/src/utils/helpers.js:35-36 | every string of the a@b.c form is accepted |
| FormRules.Required | FrontEnd/src/pages/Users.jsx:178 | a required field has an error iff it is blank after trimming, and the error is the field's message |
| FormRules.EmailError | FrontEnd/src/pages/Login.jsx:39-43 | blank gives "Email é obrigatório"; non-blank and not matching gives "Email inválido"; no error iff non-blank and matching |
| FormRules.PasswordError | FrontEnd/src/pages/Register.jsx:34-38 | blank after trimming gives "Senha é obrigatória"; otherwise fewer than 6 raw characters gives the length error; no error iff non-blank and at least 6 long |
| FormRules.SpacesArePasswordMissing | FrontEnd/src/pages/Register.jsx:34-38 | six spaces are a missing password, not a long enough one |
| Users.DropTrailing | FrontEnd/src/pages/Users.jsx:54 | a trailing character from the set is dropped, once; anything else is left as is |
| Users.FormatPhone | FrontEnd/src/pages/Users.jsx:50-58 | '' for ''; fewer than 6 digits come back bare; 6 digits give "(DD) DDDD"; 7–10 digits give "(DD) DDDD-D…"; 11 or more give "(DD) DDDDD-DDDD" followed by the remaining digits |
| Users.FormatPhoneDigits | FrontEnd/src/pages/Users.jsx:50-57 | the formatted phone has exactly the input's digits in order, plus only '(', ')', ' ' and '-' |
| Users.FormatPhoneNoTrailingDash | FrontEnd/src/pages/Users.jsx:54-56 | the formatted phone never ends in '-' |
| Users.FormatCpf | FrontEnd/src/pages/Users.jsx:60-67 | '' for ''; fewer than 9 digits come back bare; 9 give "ddd.ddd.ddd"; 10–11 give "ddd.ddd.ddd-d…"; more than 11 return the input unchanged |
| Users.FormatCpfDigits | FrontEnd/src/pages/Users.jsx:60-65 | with at most 11 digits the formatted CPF has exactly the input's digits in order, plus only '.' and '-' |
| Users.FormatPhoneDisplay | FrontEnd/src/pages/Users.jsx:69-72 | '-' for an empty value, else the formatted phone |
| Users.FormatCpfDisplay | FrontEnd/src/pages/Users.jsx:74-77 | '-' for an empty value, else the formatted CPF |
| Users.Normalize | FrontEnd/src/pages/Users.jsx:110-115 | the user is kept; phone defaults to ''; profile is 'admin' iff the role is 'admin', else 'user'; status is 'inactive' iff isActive is false, else 'active' |
| Users.Present | FrontEnd/src/pages/Users.jsx:109 | the present users, each from the input, with every present input user kept |
| Users.NormalizedUsers | FrontEnd/src/pages/Users.jsx:105-116 | [] when the list is missing; otherwise one normalised user per present user |
| Users.ComputeStats | FrontEnd/src/pages/Users.jsx:128-133 | total is the list length; active + inactive = total; each count is the size of its filter; admins ≤ total |
| Users.NullFlagShownActiveCountedInactive | FrontEnd/src/pages/Users.jsx:114-130 | a null isActive is shown as 'active' but counted as inactive |
| Users.FilterUsers | FrontEnd/src/pages/Users.jsx:136-149 | a blank query keeps everyone; otherwise exactly the users whose lowercased name, e-mail or phone contains the lowercased trimmed query |
| Users.FilterUsersIsSubseq | FrontEnd/src/pages/Users.jsx:142-148 | the search result is an order-preserving sub-list |
| Users.PutNext | FrontEnd/src/pages/Users.jsx:176-190 | checking the next field in order extends a map holding the earlier fields' errors to one holding exactly those plus this field's |
| Users.ValidateUserForm | FrontEnd/src/pages/Users.jsx:175-194 | the error map holds exactly the fields whose rule fails, with that rule's message, and the form is valid iff no field's rule fails |
| Users.KeysOfUserErrors | FrontEnd/src/pages/Users.jsx:176-189 | only the form's eight keys can carry an error |
| Users.EditModeChecksOnlyNameAndEmail | FrontEnd/src/pages/Users.jsx:182-190 | in edit mode no field but name and e-mail can fail |
| Users.CreateRejectsShortPassword | FrontEnd/src/pages/Users.jsx:183-184 | on create a non-blank password shorter than 6 gets the length error |
| Register.NameError | FrontEnd/src/pages/Register.jsx:22-26 | blank gives the required error; non-blank but shorter than 3 once trimmed gives the length error; no error iff the trimmed name has at least 3 characters |
| Register.ConfirmError | FrontEnd/src/pages/Register.jsx:40-44 | blank confirmation gives the required error; otherwise any difference from the password gives the mismatch error; no error iff non-blank and equal |
| Register.PutNext | FrontEnd/src/pages/Register.jsx:20-44 | checking the next field in order extends the map by exactly that field's error |
| Register.ValidateRegisterForm | FrontEnd/src/pages/Register.jsx:19-47 | the error map holds exactly the failing fields, one message each, and the form is valid iff no field fails |
| Register.NoErrorsIffRulesMet | FrontEnd/src/pages/Register.jsx:19-47 | no field fails iff the trimmed name has ≥ 3 characters, the e-mail is present and valid, the password is present and ≥ 6 long, and the confirmation equals it |
| Register.Submit | FrontEnd/src/pages/Register.jsx:50-63 | an invalid form gets the correction warning; a valid one sends the trimmed name and e-mail, and meets every rule |
| Login.LoginPasswordError | FrontEnd/src/pages/Login.jsx:45-47 | the password has an error iff it is blank, and the error is "Senha é obrigatória" |
| Login.PutNext | FrontEnd/src/pages/Login.jsx:37-47 | checking the next field in order extends the map by exactly that field's error |
| Login.ValidateLoginForm | FrontEnd/src/pages/Login.jsx:36-51 | the error map holds exactly the failing fields with their messages, and the form is valid iff no field fails |
| Login.NoErrorsIffFilled | FrontEnd/src/pages/Login.jsx:36-51 | no field fails iff the e-mail is present and valid and the password is present |
| Login.ShortPasswordPassesLogin | FrontEnd/src/pages/Login.jsx:45-47 | a short non-blank password passes sign-in although the sign-up length rule rejects it |
| Login.SubmitLogin | FrontEnd/src/pages/Login.jsx:53-62 | an invalid form gets the fill-in warning; a valid one passes the untrimmed credentials on |
| GameFilters.ByTitle | FrontEnd/src/pages/Catalog.jsx:34-39 | a blank query keeps the list; otherwise exactly the titles whose lowercased text contains the lowercased trimmed query |
| GameFilters.ByTitleIsSubseq | FrontEnd/src/pages/Catalog.jsx:34-39 | the search keeps an order-preserving sub-list |
| GameFilters.ByCategory | FrontEnd/src/pages/Catalog.jsx:41-43 | with no category the list is kept; with one, the element at each even position, ceil(n/2) of them |
| GameFilters.ByCategoryIsSubseq | FrontEnd/src/pages/Catalog.jsx:41-43 | the category step keeps an order-preserving sub-list |
| GameFilters.SearchAndCategoryKeeps | FrontEnd/src/pages/Catalog.jsx:34-43 | search then category gives an order-preserving sub-list whose titles all match a non-blank query |
| Catalog.FilteredGames | FrontEnd/src/pages/Catalog.jsx:29-46 | [] without data; with no category exactly the title search of the data, so every title matching the query (every title for a blank query) is listed; with a category ceil(n/2) titles, the k-th being the searched list's title at position 2k |
| Catalog.TotalGames | FrontEnd/src/pages/Catalog.jsx:54 | the total counter: the number of titles, 0 without data; `Catalog.TotalIsUnfilteredListing` ties it to the listing |
| Catalog.AvailableGames | FrontEnd/src/pages/Catalog.jsx:55 | the available counter: the sum of the titles' quantities, a missing quantity counting 0; bounded by `Catalog.AvailableBoundsStock` |
| Catalog.FilteredGamesKeeps | FrontEnd/src/pages/Catalog.jsx:29-46 | the listing is an order-preserving sub-list of the data whose titles all match a non-blank query |
| Catalog.TotalIsUnfilteredListing | FrontEnd/src/pages/Catalog.jsx:54 | the total is the size of the unsearched, uncategorised listing (0 without data) |
| Catalog.SumStockAppend | FrontEnd/src/pages/Catalog.jsx:55 | the stock sum of two lists joined is the sum of their sums |
| Catalog.SumStockBounds | FrontEnd/src/pages/Catalog.jsx:55 | with no negative stock the sum is non-negative and at least each title's stock |
| Catalog.AvailableBoundsStock | FrontEnd/src/pages/Catalog.jsx:55 | with no negative stock the available counter is non-negative and at least each title's stock |
| Catalog.UnstockedAddNothing | FrontEnd/src/pages/Catalog.jsx:55 | a title without a quantity adds nothing to the available counter |
| Library.RentedGameIds | FrontEnd/src/pages/Library.jsx:30-32 | the ids kept are never null or undefined, and every rent's non-null game id is kept |
| Library.FilteredGames | FrontEnd/src/pages/Library.jsx:25-55 | [] on either error flag, a missing games or rents list, or no rented id; a non-empty result means both lists were present; once loaded, with no category exactly the title search of the rented titles, with a category ceil(n/2) of them, the k-th being the searched list's title at position 2k |
| Library.FilteredGamesKeeps | FrontEnd/src/pages/Library.jsx:36-52 | the listing is an order-preserving sub-list of the titles; each listed title has a truthy numeric id equal to the number of some rent's game id, and matches a non-blank query |
| Library.RentedTitleListed | FrontEnd/src/pages/Library.jsx:36-52 | with no category every rented title that matches the query (every rented title for a blank query) is listed |
| GameGrid.FindRent | FrontEnd/src/components/games/GameGrid.jsx:10 | the index of the first rent whose game id strictly equals the value, or the list length when none does |
| GameGrid.RentIdForGame | FrontEnd/src/components/games/GameGrid.jsx:7-12 | null for an id that is NaN or not positive; null with no strictly equal rent; otherwise the first matching rent's id when truthy |
| GameGrid.CardFor | FrontEnd/src/components/games/GameGrid.jsx:18-36 | the return card is chosen iff in library mode a rent id is found, and carries that truthy id; otherwise the plain card |
| GameGrid.StringRentIdsNeverMatch | FrontEnd/src/components/games/GameGrid.jsx:8-10 | when every rent's game id is a string no rent is found and the plain card is shown |
| CreateGame.SubmitError | FrontEnd/src/components/games/CreateGameModal.jsx:60-73 | blank title first, then blank image URL, then negative quantity, each with its warning; no warning iff all three pass |
| CreateGame.ZeroQuantityAccepted | FrontEnd/src/components/games/CreateGameModal.jsx:70-73 | a quantity of 0 passes |
| CreateGame.GameForm.constructor | FrontEnd/src/components/games/CreateGameModal.jsx:12-23 | the form starts with an empty uuid, title and image and quantity 0 |
| CreateGame.GameForm.HandleSubmit | FrontEnd/src/components/games/CreateGameModal.jsx:59-77 | the outcome is the first failed guard; on failure nothing changes; on success an empty uuid is filled with the fresh one and an existing uuid is kept |
| EditField.OrEmpty | FrontEnd/src/components/games/EditFieldModal.jsx:36 | a truthy value is kept, any falsy one becomes '' |
| EditField.InitialValue | FrontEnd/src/components/games/EditFieldModal.jsx:29-39 | unchanged unless a title is shown; multiplayer opens as 'true' or 'false' by the flag's truthiness; any other field opens on its value or '' |
| EditField.CheckGame | FrontEnd/src/components/games/EditFieldModal.jsx:41-51 | a missing title or a null or undefined id is "Jogo não encontrado"; any other refusal is "ID do jogo inválido"; the update goes ahead iff the coerced id is a positive number, and is sent for that id |
| EditField.BuildUpdate | FrontEnd/src/components/games/EditFieldModal.jsx:55-61 | the update has exactly one key, the edited field, holding the text compared with 'true' for multiplayer, else the value as typed |
| EditField.MultiplayerRoundTrip | FrontEnd/src/components/games/EditFieldModal.jsx:31-58 | opening the multiplayer editor and saving unchanged sends the same boolean back |
| EditField.TruthyFieldRoundTrip | FrontEnd/src/components/games/EditFieldModal.jsx:36-60 | saving another field unchanged sends its value back when it is truthy |
| EditField.FalsyFieldSentEmpty | FrontEnd/src/components/games/EditFieldModal.jsx:36-60 | saving a falsy field unchanged sends '' |
| EditField.IsSelectField | FrontEnd/src/components/games/EditFieldModal.jsx:79 | the editor shows a select iff the field is 'platform' or 'multiplayer' |
| EditField.MultiplayerOpensOnAnOption | FrontEnd/src/components/games/EditFieldModal.jsx:24-32 | multiplayer is a select field and always opens on one of its two options |
| Sidebar.FirstName | FrontEnd/src/components/layout/Sidebar.jsx:53-54 | the first word of the name split on ' ', or ''; its meaning is proved by the lemmas below |
| Sidebar.LastName | FrontEnd/src/components/layout/Sidebar.jsx:53-55 | the words after the first joined with ' ', or ''; its meaning is proved by the lemmas below |
| Sidebar.NoNameNoParts | FrontEnd/src/components/layout/Sidebar.jsx:53-55 | with no name both parts are '' |
| Sidebar.FirstNameBeforeSpace | FrontEnd/src/components/layout/Sidebar.jsx:53-54 | the first name has no space; it is the whole name when there is no space, else the text before the first space |
| Sidebar.OneWordNoLastName | FrontEnd/src/components/layout/Sidebar.jsx:55 | a name without a space has an empty last name and is its own first name |
| Sidebar.NameRecombines | FrontEnd/src/components/layout/Sidebar.jsx:53-55 | for a name with a space, first name + ' ' + last name is the name |
| ReturnRent.RentIdGuard | FrontEnd/src/data/rents/returnRent.js:8-15 | an id is accepted iff its coercion is a positive integer, and the accepted value is that integer; anything else is "ID do aluguel inválido" |
| ReturnRent.FractionAndBooleanRefused | FrontEnd/src/data/rents/returnRent.js:8-15 | 1.5 and true pass the first guard but are refused by the second |
| ReturnRent.ErrorMessage | FrontEnd/src/data/rents/returnRent.js:26-45 | a JSON body gives its error, else its message, else the default; text over 100 characters becomes its first 100 plus '...' (103 in all), shorter text is kept; empty text gives "Erro <status>: <statusText>"; a failed read gives that line with the status text defaulted |

## Left out

- Network, caching and navigation are not modelled. That covers every `fetch`, `useQuery`/`useMutation` call, cache invalidation, `navigate` and the success path of each request. The backend's answers are inputs: active rents, titles, users, wallet, `daysOverdue`.
- Backend-computed amounts are not modelled: wallet debits, fines, the deposit's new balance and subscription expiry. The front end only displays them.
- Browser storage is not modelled: the subscription choice, session and favourites persistence in `localStorage`. The subscription choice and the user are inputs.
- Timers and polling are not modelled: the wallet refresh interval, the delays before refetching, and `debounce`.
- Rendering, alerts and markup are not modelled. The message an alert would show is the model's result.
- Randomness is not modelled. `generateUUID` is replaced by a fresh uuid passed to `CreateGame.GameForm.HandleSubmit`.
- Binary floating point is not modelled. Money and parsed numbers are exact reals, and `Infinity` (the `isFinite` check) has no counterpart.
- `Js.StringToNumber` (`Number` of a string) reads decimal literals only: hexadecimal, exponent and "Infinity" forms give not-a-number, where JavaScript reads a value.
- `Js.ParseFloat` reads the longest decimal prefix and stops at an exponent, so "1e5" gives 1 where JavaScript gives 100000, and "Infinity" gives not-a-number. On the deposit path this never matters, because the amount cleaner strips every 'e' before parsing.
- Strings are sequences of Unicode scalar values, while JavaScript's `length` and `substring` count UTF-16 code units. The lengths concerned are the 6-character password rule (`FrontEnd/src/pages/Register.jsx:36`, `FrontEnd/src/pages/Users.jsx:184`), the 3-character name rule (`FrontEnd/src/pages/Register.jsx:24`) and the 100-character cut of error texts (`FrontEnd/src/data/rents/returnRent.js:36`). A password of three emoji, for example, has length 6 in JavaScript and passes, but the model counts 3 characters and refuses it.
- Text and locale rules are simplified:
  - `toLowerCase` maps ASCII letters only;
  - JavaScript's `\s` is a fixed set of blank characters;
  - locale formatting (`toFixed`, `Intl`, `toLocaleDateString`) is left out.
- Js.JsText: shows a number by its integer part, because the shortest-decimal text of a fractional number is not modelled. It is used for "Jogo #<id>" and for error messages.
- Rents.DaysUntilReturn: takes the expected date as milliseconds. It does not model an unparsable date string, which JavaScript turns into NaN.
- CreateGame.SubmitError: takes the quantity as an integer. A numeric string compared with `< 0`, and the other form fields that are sent as typed, are not modelled.
- ReturnRent.ErrorMessage: takes the response as a body kind (JSON, text, or a failed read). The content-type test that chooses between them is an input.
- Users.FormatPhone and Users.FormatCpf: take a string. The falsy non-string values the pages could pass (`null`, `undefined`) reach only the display variants, and are modelled there as ''.
- Deposit error texts produced by the backend after a request are not modelled.

## Observations

No source defect is claimed. The surprising behaviours listed at the top are proved as
the code is written.
