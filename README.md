# License-code issuance and redemption

A model of the license logic of a Discord bot (`main.py`). An administrator
creates single-use codes of the form `Wind-Banner-XXXXX-XXXXX-XXXXX-<TYPE>`;
a user redeems one, which writes (or overwrites) that user's license and
marks the code used; the user can then ask for the license status, which
is classified at read time as none, permanent, expired or active with the
remaining days and hours.

The two sqlite tables become two maps: `license_codes` (code string to type,
creation time, redeemer, redemption time) and `licenses` (user id to code,
plan label, activation time, expiry). Timestamps are whole seconds and the
plans' durations are days converted to seconds.

Modules:

- `Wrappers` (`wrappers.dfy`): `Option` for the nullable columns, `Result` for the refusals.
- `Text` (`text.dfy`): Python's `str.strip()` (over the full `str.isspace()` set) and `str.upper()`.
- `Codes` (`codes.dfy`): `generate_license` with the three random groups as
  parameters, and its inverse `ParseCode`.
- `Licenses` (`licenses.dfy`): the license row, the plan-type mapping, and the
  status classification with its days/hours split.
- `Registry` (`registry.dfy`): the two tables. Creation and redemption are
  first given as pure steps (`CreateStep`, `RedeemStep`) that return an
  outcome and the new tables. The class `LicenseDB` holds the tables in two
  map fields, and its methods apply the source's statements in place. Each
  method's postcondition says it ends in the state the matching step gives.
  The lemmas about several operations in a row are stated on the steps.

Two consequences of the code as written are proved as lemmas rather than
corrected. Creation upserts by code string without checking the old row, so
if the random groups repeat those of an already redeemed code, that code
becomes redeemable again (`CreateCanReopenUsedCode`). A plan type that ends
in white space gives a code that `strip()` changes, so typing that code back
never finds the stored row (`GeneratedCodeSurvivesStrip`).

The method `Registry.SevenDayScenario` runs the worked example through the
`LicenseDB` class and checks it with assertions. An administrator creates a
seven-day code from the type `7d`, and a user redeems it typed back with
surrounding white space. Three days later the status reads active with
4 days and 0 hours left, and a second user's attempt on the same code is
refused as already used.

## Model

| member | source | states |
|---|---|---|
| `Codes.GenerateLicense` | main.py:50-55 | the code is `Wind-Banner-`, then the first, second and third group each followed by `-` at its fixed position, then the type; every character between prefix and type is from `A-Z0-9` or `-`, and the length is 30 plus the type's length |
| `Codes.ParseCode` | main.py:50-55 | a string is accepted only when its three groups are drawn from the code alphabet |
| `Codes.ParseGenerated` | main.py:50-55 | every generated code parses back to exactly its groups and type |
| `Codes.GeneratedFromParse` | main.py:50-55 | every string that parses is the code generated from its parts, so the format is exactly what `ParseCode` accepts |
| `Codes.GenerateInjective` | main.py:50-55 | different groups or types never give the same code string |
| `Text.StripLeft` | main.py:65 | the result is a suffix of the input, all that was cut off is white space, and it does not start with white space |
| `Text.StripRight` | main.py:65 | the result is a prefix of the input, all that was cut off is white space, and it does not end with white space |
| `Text.Strip` | main.py:65 | the stripped code has no white space at either end, is empty exactly when the input is all white space, and is the input itself when the input is already trimmed |
| `Text.StripPadded` | main.py:65 | any white-space padding around a trimmed string is removed by strip, giving back that string |
| `Text.StripLeftPadded` | main.py:65 | leading white space before a string that starts with a non-space is removed |
| `Text.StripRightPadded` | main.py:65 | trailing white space after a string that ends with a non-space is removed |
| `Text.StripLeftAllSpace` | main.py:65 | an input made only of white space strips to the empty string |
| `Text.StripIdempotent` | main.py:65 | stripping twice is stripping once |
| `Text.UpperChar` | main.py:179 | ASCII lower-case letters map to their upper-case forms, every other character is unchanged |
| `Text.Upper` | main.py:179 | the upper-cased type has the input's length, maps each character by `UpperChar`, and contains no ASCII lower-case letter |
| `Text.UpperIdempotent` | main.py:179 | upper-casing twice is upper-casing once |
| `Text.UpperKeepsSpace` | main.py:179 | upper-casing keeps a type trimmed or untrimmed |
| `Licenses.PlanFor` | main.py:82-94 | `7D` gives `7일` and 7 days, `30D` gives `30일` and 30 days, `PERM` gives `영구` and no expiry, any other type gives `1회용` and 1 day; no duration exactly for the permanent label; durations are at least a day |
| `Licenses.Activate` | main.py:83-100 | the license row written at redemption has the code, the plan label, activation time `now`, no expiry exactly for `PERM`, and otherwise an expiry the plan's duration after `now` |
| `Licenses.SplitRemaining` | main.py:154-155 | for a positive remaining time, hours are below 24 and whole days and hours fall short of the remaining time by less than an hour |
| `Licenses.SplitUnique` | main.py:154-155 | no other pair of whole days and hours below 24 meets those bounds |
| `Licenses.StatusOf` | main.py:133-160 | no row gives no license; the permanent label gives permanent, whatever the expiry; otherwise expired exactly when expiry minus now is at most zero, and active with the row's label, times and days/hours split otherwise |
| `Licenses.ExpiredStaysExpired` | main.py:147-152 | an expired license reads expired, with the same fields, at every later time |
| `Licenses.PermanentAtAnyTime` | main.py:140-143 | a permanent license reads permanent, with its activation time, at every time |
| `Licenses.StatusOfActivated` | main.py:83-100 | the status of a freshly activated license after a given time: permanent for `PERM`, active with the remaining duration split into days and hours before the duration has passed, expired from then on |
| `Licenses.SevenDayExample` | main.py:83-85 | a seven-day license read three days on has 4 days and 0 hours left, and reads expired eight days on |
| `Registry.CreateStep` | main.py:174-189 | a non-administrator is refused with both tables unchanged; an administrator gets the code for the upper-cased type, stored as an unused row with that type and time, overwriting any row under the same code, leaving every other code row and the license table unchanged |
| `Registry.RedeemStep` | main.py:64-107 | an absent stripped code is not found and an already used one is refused, both leaving the tables unchanged; otherwise the result is the plan label, the user's license is replaced by the activated row, the code row keeps its type and creation time and gets the user and `now`, and no other license or code row changes |
| `Registry.StatusStep` | main.py:126-160 | no license exactly for a user without a row; otherwise the classification of that user's row |
| `Registry.CreateKeepsWellFormed` | main.py:179-187 | creation keeps every license row readable by the status query |
| `Registry.RedeemKeepsWellFormed` | main.py:97-100 | redemption keeps every license row readable by the status query (an unset expiry only with the permanent label) |
| `Registry.RedeemKeepsUsedCodes` | main.py:79-80 | a used code row is never changed by any redemption, and no redemption adds or removes a code row |
| `Registry.RedeemOnlyOnce` | main.py:79-80 | after a successful redemption, every further redemption of the same stripped code, by any user at any time, is refused as already used and changes nothing |
| `Registry.RedeemReplacesLicense` | main.py:97-100 | the user's new license row does not depend on what license the user held before |
| `Registry.CreatedCodeRedeems` | main.py:65-110 | a code just created by an administrator, typed back with any surrounding white space, redeems with the plan of its upper-cased type, provided the type does not end in white space |
| `Registry.GeneratedCodeSurvivesStrip` | main.py:55 | strip leaves a generated code unchanged exactly when its type does not end in white space |
| `Registry.CreateCanReopenUsedCode` | main.py:184-187 | when newly drawn groups give the string of a code already used, and the type does not end in white space, that code is refused as already used before the creation and redeems successfully after it, because the upsert resets it to unused |
| `Registry.LicenseDB.constructor` | main.py:22-44 | both tables start empty |
| `Registry.LicenseDB.CreateCode` | main.py:174-191 | ends in exactly the outcome and tables of `CreateStep`, keeping license rows readable |
| `Registry.LicenseDB.Redeem` | main.py:64-110 | ends in exactly the outcome and tables of `RedeemStep`, keeping license rows readable |
| `Registry.LicenseDB.QueryStatus` | main.py:125-162 | changes nothing and returns the classification `StatusStep` gives for the user at `now` |

## Left out

- The Discord client, slash-command registration, the modal, buttons and views as UI, embeds, colours and message texts, `bot.run` and `on_ready`: a foreign library and I/O. The refusal messages become the `Error` values `Unauthorized`, `CodeNotFound` and `CodeAlreadyUsed`.
- The administrator check itself (`guild_permissions.administrator`): it is passed in as a boolean.
- sqlite connections and `init_db`: the tables are in-memory maps, starting empty.
- `random.choices`: the three groups are parameters constrained to five characters of `A-Z0-9`.
- `datetime.utcnow`, ISO-8601 storage and `strftime` display: `now` is an integer-seconds parameter. Microseconds are ignored, so a remaining time below one second is not modelled.
- `os.getenv` token loading.
- Concurrent interactions: each operation is atomic, matching the single commit of the redemption.
- Text.Upper, Text.UpperChar: map only the ASCII letters `a`-`z`, while Python's `str.upper()` also maps other letters, some to several characters (`ß` to `SS`).
- Licenses.StatusOf: requires the row to be well formed (an unset expiry only with the permanent label). The source would raise on any other row when parsing the expiry. Such rows are never written, as `LicenseDB.Valid` keeps.
