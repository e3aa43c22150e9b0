# Little Lemon: a verified model of the menu stores, the profile forms and the category row

Little Lemon is a React Native restaurant app. This project models the parts
of it that hold logic, and proves what they promise:

- **The menu store of `db.js`**: an SQLite table `menu` that `init` creates
  when it is missing and `insertMenuItems` grows one row per dish.
  `fetchMenuItems` filters it by category list and name search through a
  parameterised `SELECT` it builds step by step. `deleteAllMenuItems` empties it.
- **The older store of `database.js`** on a `Dish` table. Its INSERT names four
  columns but has five placeholders, so no dish is ever stored.
- **The Profile screen** (`screens/Profile.js`):
  - the name, phone and e-mail validators, which are anchored regular expressions;
  - the error object built by `validateInputs`, and the user's initials;
  - the four notification checkboxes and their JSON text in storage;
  - the `getData`, `saveChanges`, `discardChanges` and `handleLogout`
    transitions over AsyncStorage.
- **The Onboarding screen** (`screens/Onboarding.js`): validation, `setData`,
  the routing decision of `getData`, and the colour of the Next button.
- **The category row** (`CategoryList.js`): `capitalizeFirstLetter` and the
  buttons it renders.

Files and modules:

| file | module | models |
|---|---|---|
| `Text.dfy` | `Text` | JavaScript strings as `seq<char>`. Also `\s` and `trim`, ASCII `toUpperCase`, `split` and `join`. |
| `Sql.dfy` | `Sql` | The SQL the stores send: `SELECT` rendering, parsing and evaluation (including `LIKE`), and INSERT preparation. |
| `MenuStore.dfy` | `MenuStore` | `db.js` |
| `DishStore.dfy` | `DishStore` | `database.js` |
| `Storage.dfy` | `Storage` | AsyncStorage, as a `map<string, string>` |
| `Validation.dfy` | `Validation` | the validators shared by both screens |
| `Profile.dfy` | `Profile` | `screens/Profile.js` |
| `Onboarding.dfy` | `Onboarding` | `screens/Onboarding.js` |
| `CategoryList.dfy` | `CategoryList` | `CategoryList.js` |

Stores and screens that update state in place are classes:
`MenuDatabase`, `DishDatabase`, `Store`, `ProfileScreen` and `OnboardingScreen`.
Their methods are proved against pure specification functions, and the
properties are proved about those functions as lemmas.

SQLite behaviour that the model fixes explicitly:
- A row inserted without an `id` into an `INTEGER PRIMARY KEY` table gets one
  more than the largest id present.
- A statement whose number of values differs from its number of columns is
  rejected when it is prepared.
- `LIKE` folds ASCII case and treats `%` and `_` as wildcards.

An `insertMenuItems` promise resolves once the statements are queued, so it
always resolves. The per-statement error callbacks reject a promise that has
already settled.

## Model

| member | source | states |
|---|---|---|
| MenuStore.NextId | db.js:12 | The id given to an inserted row is positive and larger than every id in the table. |
| MenuStore.MaxId | db.js:12 | No row's id exceeds the largest id. |
| MenuStore.InsertedRows | db.js:26-35 | Inserting appends exactly one row per item, in item order. Each new row copies its item, the rows already stored are unchanged, and the new ids are fresh and increasing, so ids stay unique. |
| MenuStore.MenuDatabase.Open | db.js:4 | Opening the database keeps whatever it already holds. |
| MenuStore.MenuDatabase.Init | db.js:7-19 | `CREATE TABLE IF NOT EXISTS` leaves the table present with its rows untouched, and resolves. A second call changes nothing. |
| MenuStore.MenuDatabase.InsertMenuItems | db.js:22-38 | With the table present, the rows become `Inserted(old rows, items)`. Without it, nothing changes. The promise resolves either way. |
| MenuStore.JoinMarks | db.js:50 | `categories.map(() => "?").join(", ")` yields the mark list with exactly n `?`. |
| MenuStore.BuildQuery | db.js:44-57 | The `+=` and `push` steps build the rendering of the query plan and its bindings, with as many `?` as parameters. |
| MenuStore.PlanShape | db.js:41-57 | The query has at most two conditions: none iff both filters are empty, two iff both are given. The parameters fill its placeholders. The defaults give `SELECT * FROM menu` with no parameters. |
| MenuStore.PlanText | db.js:45-56 | The rendered plan is the text `fetchMenuItems` appends: `SELECT * FROM menu`, then the category clause after ` WHERE `, then the name clause after ` AND ` when there are categories and after ` WHERE ` when there are none. |
| MenuStore.FilterRows | db.js:48-57 | The filter specification: a row is returned iff it is stored, its category is in the list (when the list is non-empty), and its name contains the search text ignoring ASCII case (when the search is non-empty). |
| MenuStore.HoldsPlan | db.js:48-57 | With its parameters bound, the built WHERE clause holds of a row exactly when the row satisfies the filter specification. |
| MenuStore.MatchingPlan | db.js:48-64 | The rows SQLite returns for the built statement are exactly the filtered rows. |
| MenuStore.FilterSameCategories | db.js:48-51 | Category lists with the same members, whatever their order or repetitions, select the same rows. |
| MenuStore.FilterNothing | db.js:41-46 | With the default arguments every stored row is returned. |
| MenuStore.MatchingIn | db.js:59-62 | A SELECT returns only stored rows. |
| MenuStore.MenuDatabase.FetchMenuItems | db.js:41-67 | Without the table, the fetch is rejected with "no such table". Otherwise it resolves with stored rows only, and for a wildcard-free search with exactly the filtered rows. |
| MenuStore.MenuDatabase.DeleteAllMenuItems | db.js:70-82 | `DELETE FROM menu` leaves the table present and empty, so a later fetch returns nothing. Without the table it rejects. |
| Sql.SelectPlaceholders | db.js:48-57 | A rendered SELECT has one `?` per parameter its conditions take. |
| Sql.MarksCount | db.js:50 | The mark list for n categories holds n `?`. |
| Sql.ParseSelectOf | db.js:59-61 | SQLite reads back exactly the query that was rendered. |
| Sql.LikeContains | db.js:55-56 | For search text without `%` or `_`, `name LIKE '%text%'` holds iff the name contains the text, ignoring ASCII case. |
| Sql.PrepareInsert | database.js:23-24 | An INSERT is accepted iff its placeholder count equals its column count and the number of bound values equals the placeholder count. |
| DishStore.DishInsertRejected | database.js:23-24 | The Dish INSERT, with five values for four columns, is rejected for every item, and `category` is not among its columns. |
| DishStore.IntendedDishInsertAccepted | database.js:23-24 | The INSERT with the `category` column added is accepted and writes all five values. |
| DishStore.DishDatabase.Open | database.js:3 | Opening LittleLemon.db keeps its contents. |
| DishStore.DishDatabase.Init | database.js:5-16 | `CREATE TABLE IF NOT EXISTS Dish` keeps existing rows, and resolves. |
| DishStore.DishDatabase.InsertMenuItems | database.js:18-32 | No row is ever added, yet the promise resolves. |
| DishStore.DishDatabase.FetchMenuItems | database.js:34-45 | With the table present, the fetch returns every row of `Dish`, unfiltered. Without it, the fetch rejects. |
| DishStore.DishDatabase.DeleteAllMenuItems | database.js:48-59 | `DELETE FROM Dish` leaves the table empty. |
| Storage.Store.GetItem | screens/Profile.js:94-99 | `getItem` gives the stored value, or null for a missing key. |
| Storage.Store.SetItem | screens/Profile.js:136-144 | `setItem` sets one key and leaves every other key alone. |
| Storage.Store.Clear | screens/Profile.js:195 | `clear` removes every key. |
| Validation.NameValidIff | screens/Profile.js:64-68 | A first or last name is valid iff it is non-empty and all ASCII letters. The trim test adds nothing. |
| Text.TrimEmpty | screens/Profile.js:65 | `trim()` gives "" iff every character is JavaScript whitespace. |
| Validation.ParseRenderPhone | screens/Profile.js:61-62 | Every match of the phone pattern is found, with its optional groups. |
| Validation.RenderParsePhone | screens/Profile.js:61-62 | Whatever the recogniser accepts is a match of the pattern spanning the whole text. |
| Validation.PhoneValidIff | screens/Profile.js:61-62 | A text is accepted iff it has the shape: an optional `+1` and whitespace, an optional `(ddd)` and whitespace, then three digits, an optional whitespace, `.` or `-`, and four digits. That match is unique. |
| Validation.MaskedPhoneValid | screens/Profile.js:311-317 | Every number that completely fills the mask `(999) 999-9999` is valid. |
| Validation.SingleLabelRejected | screens/Onboarding.js:32-35 | `a@b` is not a valid address. |
| Validation.NoDotNoDomain | screens/Onboarding.js:33 | A domain without a dot is neither an address literal nor a host name. |
| Validation.EmailShape | screens/Profile.js:69-72 | A valid address has a non-empty local part before an `@`, a domain after it, and ends in a letter of the top-level domain or in `]`. |
| Validation.DomainPartEnd | screens/Profile.js:70 | A domain is non-empty and ends in a letter of the top-level domain or in the `]` of an address literal. |
| Validation.EmailOfParts | screens/Profile.js:69-72 | Dot-joined atoms, `@`, dot-joined labels and a top-level domain of two or more letters always make a valid address. |
| Profile.Toggle | screens/Profile.js:327-375 | A checkbox handler flips its own flag and leaves the other three unchanged. |
| Profile.ToggleTwice | screens/Profile.js:327-375 | Pressing a checkbox twice restores the flags. |
| Profile.ProfileScreen.ToggleCheckbox | screens/Profile.js:327-375 | The screen's checkboxes become the toggled ones. |
| Profile.DecodeEncodeCheckboxes | screens/Profile.js:141-144 | `JSON.parse` of what `JSON.stringify` stored gives back the four flags. |
| Profile.EncodeDecodeCheckboxes | screens/Profile.js:108-109 | The only texts read as checkboxes are the ones `saveChanges` writes. |
| Profile.Errors | screens/Profile.js:75-84 | The error object has an entry, with its message, exactly for each failing check. It is empty iff all five checks pass. |
| Profile.CollectErrors | screens/Profile.js:76-81 | The successive `newErrors.x = ...` assignments build that error object. |
| Profile.ProfileScreen.ValidateInputs | screens/Profile.js:75-84 | `errors` becomes the error object of the form, and the result is true iff the form is valid. |
| Profile.Initials | screens/Profile.js:221-223 | The initials have one character per non-empty name, at most two, and are empty iff both names are. They are the upper-cased first characters, first name first. |
| Profile.SaveProfile | screens/Profile.js:136-144 | Saving sets exactly the six profile keys to the form's values, with the checkboxes as their JSON text. Other keys are kept. |
| Profile.LoadNothing | screens/Profile.js:102-116 | With nothing stored, `getData` yields "" for each text, no image, and all four checkboxes false. |
| Profile.LoadAfterSave | screens/Profile.js:102-116 | Loading what was saved gives back the form. |
| Profile.ProfileScreen.constructor | screens/Profile.js:32-58 | Before loading, the form and `initialData` are empty and there are no errors. |
| Profile.ProfileScreen.GetData | screens/Profile.js:91-129 | Unless the stored checkboxes fail to parse, `initialData` and the form take the loaded values, with the defaults for missing ones. When they fail to parse, nothing changes. |
| Profile.ProfileScreen.SaveChanges | screens/Profile.js:132-157 | The six keys are written iff the form is valid. Otherwise the store is unchanged. The errors are recorded either way. |
| Profile.ProfileScreen.DiscardChanges | screens/Profile.js:160-162 | Discarding reloads the form from the store. |
| Profile.ProfileScreen.HandleLogout | screens/Profile.js:193-218 | Logging out empties the store and resets the texts to "", the image to null and the checkboxes to false. |
| Profile.ProfileScreen.RemoveImage | screens/Profile.js:277-282 | The Remove button clears the image. |
| Onboarding.OnboardingErrors | screens/Onboarding.js:37-43 | The error object has a first-name entry iff the name is invalid, an e-mail entry iff the address is invalid, and no other entries. It is empty iff both are valid. |
| Onboarding.OnboardingScreen.ValidateInputs | screens/Onboarding.js:37-43 | `errors` becomes that object, and the result is true iff both fields are valid. |
| Onboarding.OnboardingScreen.constructor | screens/Onboarding.js:26-28 | The fields start empty, with no errors. |
| Onboarding.OnboardingScreen.SetData | screens/Onboarding.js:61-73 | When both fields are valid, exactly `UserName` and `UserEmail` are written and the app goes on to Profile. Otherwise the store is untouched. |
| Onboarding.GetData | screens/Onboarding.js:49-59 | The app goes on to Profile iff a `UserName` is stored. |
| Onboarding.NextButtonColour | screens/Onboarding.js:135-141 | The Next button takes the active colour `#F4CE14` iff both fields are valid, and `#EDEFEE` otherwise. |
| Onboarding.ProfileAfterOnboarding | screens/Onboarding.js:61-73 | After onboarding from an empty store, Profile loads the name and address with everything else empty. Saving right away fails on the last name, the phone and the image. |
| CategoryList.CapitalizeFirstLetter | CategoryList.js:6-8 | Capitalising keeps the length, upper-cases the first character, and leaves the rest unchanged. "" stays "". |
| CategoryList.CapitalizeIdempotent | CategoryList.js:6-8 | Capitalising twice is capitalising once. |
| CategoryList.Buttons | CategoryList.js:18-36 | There is one button per category, in order. Its key is the category, its text the capitalised category, and it is selected iff the category is in the selection. Pressing it passes exactly that category to `onSelectCategory`. |
| CategoryList.SelectedCategories | CategoryList.js:23-30 | A category shows as selected iff it is both listed and selected. |
| CategoryList.SelectionAsSet | CategoryList.js:23-30 | Only membership in the selection matters, not its order or repetitions. |

## Left out

- MenuStore.MenuDatabase.FetchMenuItems: the exact result is stated only for search text without `%` or `_`. The source does not escape them, so they act as `LIKE` wildcards. For such text the model only states that the result holds stored rows.
- Asynchrony: `db.transaction`, the `executeSql` callbacks and the `await`s of AsyncStorage are modelled as sequential calls. Row order is insertion order (`SELECT` has no `ORDER BY`).
- Failures of the device: a database that cannot be opened, a failing `CREATE TABLE`, and AsyncStorage calls that throw. The storage calls always succeed here, so the `catch` blocks around them only log.
- `price` is a REAL in SQLite and a number in JavaScript. It is kept as an opaque integer.
- Profile.DecodeCheckboxes: only the text `JSON.stringify` writes, with the keys in their order and no spaces, is read back. Other JSON that `JSON.parse` would accept is treated as a parse error. Only this app writes the key.
- Profile.Initials: `toUpperCase` is modelled for ASCII letters only. Other characters are kept as they are.
- CategoryList.CapitalizeFirstLetter: `toUpperCase` is modelled for ASCII letters only. For non-ASCII first characters, lengths could differ.
- JavaScript strings are sequences of UTF-16 code units; the model uses Unicode characters. This only matters for characters outside the Basic Multilingual Plane.
- `pickImage` and the image picker, `Alert`, `console`, fonts, the splash screen, styles and rendering.
- Navigation is reduced to the two routing decisions it takes. App.js, screens/Splash.js, screens/Home.js and screens/Test.js are not part of this model.
- The text inputs' `onChangeText` setters are direct assignments to the screen's fields.
- `handleLogout` leaves `initialData` and `errors` as they were. The model keeps that (its `modifies` clause excludes them).

## Findings

| source | as written | input that shows it | evidently intended | confidence | as-written member | corrected member |
|---|---|---|---|---|---|---|
| database.js:23-24 | `INSERT INTO Dish (name, price, description, image) VALUES (?, ?, ?, ?, ?)` with five bound values | any non-empty list of dishes: SQLite refuses "5 values for 4 columns" and no row is stored, yet the promise resolves | the `category` column in the list, as db.js:29 has it, so each dish is stored with its category | not executed | DishStore.DishInsertRejected | DishStore.IntendedDishInsertAccepted |
