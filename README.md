# api-sorteio in Dafny

This project models the core of api-sorteio, the registration API for scholarship draws
("sorteios"). It covers four parts:

- the CPF validator (`validateCPF`), the check on the Brazilian taxpayer number with two mod-11 check digits;
- the registration ledger:
  - POST `/pessoas`, which finds or creates a person;
  - POST `/inscriptions`, which registers a person for a draw and a course;
  - GET and DELETE `/inscriptions/:id`;
- the `Inscription` and `Winner` models, which mark and list winners;
- draw creation (POST `/draws`) and the GET `/draws` row mapping.

Modules:

- `Wrappers`: an `Option` type.
- `Js`: JavaScript truthiness and the `x || default` idiom.
  - A field that a handler checks for truthiness before use is `Option<string>` or `Option<int>`. Here `None` is an absent key or JSON `null`, which the check treats alike.
  - A field bound straight into a query is `Field<T>`: `Absent` (`undefined`), `JsonNull` or `Given(v)`. The mysql2 driver binds `null` as SQL NULL and throws on `undefined`.
- `Query`: the SQL building blocks.
  - First matching row, for a query without ORDER BY, which yields rows in table order.
  - `WHERE` as a filter.
  - `ORDER BY` as a stable sort on an integer key. `DESC` is a negated key. NULL sorts lowest, as in MySQL.
- `Cpf`: the rule `IsValidCpf` as a predicate, and `ValidateCpf`, a method with the source's two loops proved equal to it. Lemmas give the rule's properties and computed samples.
- `Draws`: the `sorteios` row, POST `/draws` defaults, next-id allocation, and the GET row mapping and order.
- `Registry`: the tables `pessoas`, `cidades`, `cursos`, `sorteios` and `inscricoes`, held by the class `Database`. Each handler is one method and returns a result datatype that carries the HTTP status. Lemmas and scenario methods connect successive calls.
- `Models`: the tables `inscriptions` and `winners`, held by the class `Store`. It has `create`, `markAsWinner` and `Winner.create` as methods, and the read queries as functions of the tables.

`NOW()` is a natural-number parameter of each operation. Each handler runs as one atomic step.

In these points the model follows the code as written:

- POST `/pessoas` does not call `validateCPF`. It compares the CPF exactly as sent, with no digit stripping.
- POST `/pessoas` and POST `/inscriptions` never read the draw's `MULTIPLAINSCRICAO` flag.
- Sending the same CPF again gives 409 only once that person has an inscription in the draw. Before that, the answer is 200 with the existing `IDPESSOA` and `created=false` (see `Registry.FindOrCreateScenario`).
- `markAsWinner` has no already-won guard. A second call overwrites the first marking and returns true again.
- POST `/pessoas` passes `phone`, `city` and `state` to the driver unchecked. If one of these keys is absent, `execute` throws inside a callback and no response is sent (`NoResponse`). An explicit `null` is bound as NULL.
- The city lookup compares `IDESTADO` with the `state` value of the request, so a request must send the state's numeric id, not its abbreviation.

`routes/cidadeRoutes.js` repeats the inscription handlers of `routes/inscriptionRoutes.js` with capitalised table names. The same members model both, on the assumption that `Inscricoes` and `inscricoes` name one table.

## Model

| member | source | states |
|---|---|---|
| Js.AsFlag | models/Inscription.js:19 | `v ? 1 : 0` is always 0 or 1, and is 1 exactly when `v` is truthy |
| Js.Field.Bound | routes/inscriptionRoutes.js:139-141 | a given field binds its value and a null one binds NULL; an absent field cannot be bound (its precondition) |
| Js.OrElse | routes/inscriptionRoutes.js:185 | the `OR` default is the field when present and non-empty, otherwise the fallback |
| Js.OrNull | routes/drawRoutes.js:144 | the `OR null` default is null exactly when the field is missing or empty, otherwise the field itself |
| Query.FirstMatch | routes/inscriptionRoutes.js:130 | `results[0]`: no row exactly when nothing matches, otherwise the index of the first matching row |
| Query.Filter | routes/inscriptionRoutes.js:166 | a WHERE clause keeps exactly the matching rows, each as often as in the table |
| Query.InsertBy | models/Inscription.js:27 | inserting into an ordered result keeps it ordered and adds exactly that row |
| Query.SortBy | models/Inscription.js:27 | ORDER BY returns a sorted permutation of the rows |
| Cpf.DigitValue | utils/validateCPF.js:19 | `parseInt` of one digit character is between 0 and 9 |
| Cpf.StripNonDigits | utils/validateCPF.js:6 | removing non-digits leaves only digits and never lengthens the string |
| Cpf.CheckDigit | utils/validateCPF.js:22-24 | the normalised remainder is at most 9 and equals the remainder mod 10, so the `=== 11` branch is dead |
| Cpf.ValidateCpf | utils/validateCPF.js:2-38 | the two-loop validator returns exactly `IsValidCpf`: present, 11 digits after stripping, not one repeated digit, both check digits right |
| Cpf.RepeatsOneDigit | utils/validateCPF.js:12 | holds exactly for digit strings of length two or more whose characters are all equal |
| Cpf.WeightedSumBounds | utils/validateCPF.js:18-30 | with every weight between 1 and `top`, the weighted sum of `n` digits lies between 0 and `9 * n * top` |
| Cpf.IsValidCpf | utils/validateCPF.js:2-38 | an accepted input is present and has at least eleven characters, since stripping only removes characters |
| Cpf.StripKeepsDigits | utils/validateCPF.js:6 | stripping a digit string leaves it unchanged |
| Cpf.FormattingIgnored | utils/validateCPF.js:6 | the verdict depends only on the digit characters of the input |
| Cpf.RejectsMissingOrMisSized | utils/validateCPF.js:3-9 | null, empty, and anything without exactly 11 digits is rejected |
| Cpf.RepeatedDigitRejected | utils/validateCPF.js:12 | eleven copies of one digit are rejected |
| Cpf.WeightedSumReadsPrefix | utils/validateCPF.js:18-20 | the weighted sum depends only on the digits it weighs |
| Cpf.CheckDigitsDetermined | utils/validateCPF.js:18-35 | two accepted numbers with the same first nine digits are the same number |
| Cpf.CorruptedLastDigitRejected | utils/validateCPF.js:28-35 | changing only the last digit of an accepted number makes it rejected |
| Cpf.DigitStringVerdict | utils/validateCPF.js:9-35 | on a digit string, the verdict is: length 11, not all one digit, both check digits equal |
| Cpf.FirstSampleCheckDigits | utils/validateCPF.js:18-34 | the check digits computed for "11144477735" are 3 and 5 |
| Cpf.SecondSampleCheckDigits | utils/validateCPF.js:18-34 | the check digits computed for 529982247 are 2 and 5 |
| Cpf.FirstSample | utils/validateCPF.js:2-38 | "11144477735" is accepted |
| Cpf.CorruptedSample | utils/validateCPF.js:28-35 | "11144477736" is rejected: its computed second check digit is 5, not 6 |
| Cpf.SecondSample | utils/validateCPF.js:2-38 | "52998224725" is accepted |
| Cpf.StripConcat | utils/validateCPF.js:6 | stripping distributes over concatenation |
| Cpf.PunctuatedVerdict | utils/validateCPF.js:6 | "ddd.ddd.ddd-dd" strips back to its digits and gets the same verdict |
| Cpf.PunctuatedStrips | utils/validateCPF.js:6 | stripping "ddd.ddd.ddd-dd" gives back its eleven digits |
| Cpf.PunctuatedSample | utils/validateCPF.js:6-37 | "111.444.777-35" is accepted |
| Draws.MaxDrawId | routes/drawRoutes.js:129 | `COALESCE(MAX(IDSORTEIO), 0)` bounds every id, is 0 on an empty table, and otherwise is some row's id |
| Draws.NextDrawId | routes/drawRoutes.js:128-132 | the new id is above every existing id, is 1 on an empty table, and otherwise is an existing id plus 1 |
| Draws.BolsasOrDefault | routes/drawRoutes.js:147 | the award count is the parsed number, or 3 when parsing gives NaN or 0; it is never 0 |
| Draws.DrawFieldsPresent | routes/drawRoutes.js:113 | when it holds the name is a non-empty string; given a name, it holds exactly when both dates are sent, even if malformed |
| Draws.NewDrawRow | routes/drawRoutes.js:136-152 | the inserted row has the new id and the name. Description and url are null exactly when empty or missing, and otherwise stored as sent. Flags are 1 exactly when truthy, else 0. The award count is `BolsasOrDefault` of the parsed value, so never 0. CRIADOPOR is 'admin' and CRIADOEM is now |
| Draws.NormalizeDraw | routes/drawRoutes.js:60-71 | the GET mapping keeps the id and a present name, description, url and award count; otherwise it uses 'Sorteio sem nome', '', '' and 0. Flags become booleans and a missing creation time becomes now |
| Draws.DrawsNewestFirst | routes/drawRoutes.js:54 | the same rows ordered by CRIADOEM descending, with rows lacking one last |
| Draws.ListDraws | routes/drawRoutes.js:41-71 | GET `/draws` yields one mapped entry per row, in CRIADOEM-descending order |
| Draws.CreatedDrawListing | routes/drawRoutes.js:141-152 | a draw created by POST is listed with its id, name, flags as truthiness, non-zero award count and creation time |
| Registry.InscriptionsOfCpf | routes/inscriptionRoutes.js:84-91 | every id the CPF join returns is an inscription of that draw |
| Registry.InscriptionsOfCpfNonEmpty | routes/inscriptionRoutes.js:84-99 | the join is non-empty exactly when a person with that exact CPF has an inscription in the draw |
| Registry.PersonIdByCpf | routes/inscriptionRoutes.js:102-111 | the lookup finds nothing exactly when no person has that CPF, otherwise the id of the first person with it |
| Registry.CityCode | routes/inscriptionRoutes.js:115-130 | nothing exactly when city or state is null or no city matches both, otherwise the code of the first matching city |
| Registry.InscriptionsOfPair | routes/cidadeRoutes.js:31-32 | the duplicate check is non-empty exactly when the (person, draw) pair is already registered |
| Registry.WithoutInscription | routes/cidadeRoutes.js:148 | the DELETE keeps exactly the rows with another id |
| Registry.DeleteRemovesOneRow | routes/inscriptionRoutes.js:257-268 | with unique ids, the DELETE removes exactly the one matching row and keeps the rest in order |
| Registry.DeleteHeadRow | routes/inscriptionRoutes.js:259 | with unique ids, deleting the first row's id leaves exactly the other rows |
| Registry.DeleteAfterHead | routes/inscriptionRoutes.js:259 | a first row with another id survives the DELETE, in front of what the DELETE leaves of the rest |
| Registry.TailKeepsIdsUnique | routes/inscriptionRoutes.js:259 | the rows after the first keep unique ids |
| Registry.WithoutNoMatch | routes/cidadeRoutes.js:158-162 | a DELETE that matches nothing leaves the table unchanged |
| Registry.PersonName | routes/cidadeRoutes.js:120 | the person LEFT JOIN: null exactly when no person has the id, otherwise a matching person's name, and with unique ids the matching person's name |
| Registry.CourseName | routes/cidadeRoutes.js:121 | the course LEFT JOIN: null exactly when no course has the id, otherwise a matching course's name, and with unique ids the matching course's name |
| Registry.DrawDescription | routes/cidadeRoutes.js:122 | the draw LEFT JOIN: null when no draw has the id, otherwise a matching draw's (nullable) description, and with unique ids the matching draw's description |
| Registry.FindInscription | routes/cidadeRoutes.js:110-142 | GET by id gives nothing (404) exactly when no row has that id. Otherwise it gives that row, with the person name, course name and draw description of the three LEFT JOINs |
| Registry.Database.constructor | routes/inscriptionRoutes.js:6-12 | a database with the given reference tables and no persons or inscriptions |
| Registry.PessoaFieldsPresent | routes/inscriptionRoutes.js:79 | when it holds, the four fields the insert reads are defined; an empty string or a zero draw id fails it like a missing field; any four truthy values pass it, whatever phone, city and state are |
| Registry.InscricaoIdsPresent | routes/inscriptionRoutes.js:162 | when it holds, the three ids are defined; a zero id fails it like a missing one; any three truthy ids pass it, whatever CRIADOPOR is |
| Registry.NewPerson | routes/inscriptionRoutes.js:133-141 | the inserted person has the new id, the name, CPF and email as sent, the phone or NULL, the given city code, CRIADOPOR = email and both times now |
| Registry.NewInscricao | routes/inscriptionRoutes.js:177-185 | the inserted inscription has the new id and the three ids as sent, CRIADOPOR as sent or 'Sistema' when it is empty or missing, and all three times now |
| Registry.Database.PostPessoa | routes/inscriptionRoutes.js:76-153 | 400 exactly when a required field is missing. Otherwise 409 exactly when the CPF has an inscription in the draw. Otherwise the existing person's id (200). Otherwise no response when `city` or `state` is absent. Otherwise 400 when no city matches. Otherwise no response when `phone` is absent. Otherwise one person is appended, with the phone or NULL and CRIADOPOR = email (201). Nothing else changes, and CPF uniqueness is preserved |
| Registry.Database.PostInscription | routes/inscriptionRoutes.js:159-198 | 400 exactly when an id is missing. 409 exactly when the pair is registered. Otherwise one row is appended with CRIADOPOR defaulting to 'Sistema' (201). Nothing else changes, and pair uniqueness is preserved |
| Registry.Database.DeleteInscription | routes/cidadeRoutes.js:145-168 | 200 exactly when a row has the id, and then exactly that row is removed. Otherwise 404 and no change |
| Registry.Database.PostDraw | routes/drawRoutes.js:99-159 | 400 exactly when a name or date is missing. 500 exactly when a date is malformed. Otherwise the row `NewDrawRow` is appended with the next id, which is above every existing id (201) |
| Registry.DeleteKeepsIdsUnique | routes/inscriptionRoutes.js:259 | removing one row keeps inscription ids unique |
| Registry.RegisterKeepsPairsUnique | routes/cidadeRoutes.js:31-58 | appending a row for an unregistered pair keeps (person, draw) pairs unique |
| Registry.InsertedPersonIsFound | routes/inscriptionRoutes.js:102-147 | after inserting a person under a new CPF, the CPF lookup finds that person |
| Registry.PostPessoaTwice | routes/inscriptionRoutes.js:102-147 | a repeat POST with the same CPF, for a draw the CPF is not in, returns the first call's id with `created=false` |
| Registry.PostInscriptionTwice | routes/inscriptionRoutes.js:166-174 | a repeat inscription of a pair the first call registered is refused with 409 |
| Registry.RecifeDatabase | routes/inscriptionRoutes.js:115-130 | a fresh database where the city lookup finds Recife and not an unknown city |
| Registry.FindOrCreateScenario | routes/inscriptionRoutes.js:102-147 | a first POST `/pessoas` creates person 1 (201); a second returns person 1 (200) |
| Registry.DuplicateInDrawScenario | routes/inscriptionRoutes.js:84-174 | once a person is inscribed, both a new person request and a new inscription for that draw get 409 |
| Registry.UnknownCityScenario | routes/inscriptionRoutes.js:115-128 | a person from an unknown city gets 400, one with no `city` key gets no response, and no person row is added |
| Registry.MissingPhoneScenario | routes/inscriptionRoutes.js:133-147 | without a `phone` key nothing is stored and no response is sent; with `"phone": null` the person is created (201) with no phone |
| Models.NewInscriptionRow | models/Inscription.js:6-20 | the inserted row has the given id and time, stores the eight data fields as given and `accepted` as 1 if truthy and 0 otherwise, and is not a winner |
| Models.MarkRows | models/Inscription.js:40-43 | the UPDATE sets the winner columns on the rows with that id and leaves every other row unchanged |
| Models.MarkTwiceOverwrites | models/Inscription.js:40-45 | marking twice equals marking once with the second modality, institution and time |
| Models.FindById | models/Inscription.js:32-37 | null exactly when no row has the id, otherwise a row of the table with that id |
| Models.FindAll | models/Inscription.js:25-30 | every row, each as often as in the table, sorted by created_at descending |
| Models.GetWinners | models/Inscription.js:48-53 | exactly the rows with is_winner = 1, sorted by won_at ascending |
| Models.MarkedRowIsListed | models/Inscription.js:39-53 | a row just marked is listed by getWinners with the new winner columns |
| Models.SameMembers | models/Inscription.js:50 | reordering rows keeps the same rows |
| Models.ListingsOf | models/Winner.js:18 | the join rows for one winner are exactly that winner with each matching inscription |
| Models.ListingsOfAtMostOne | models/Winner.js:18 | with unique inscription ids a winner joins at most one inscription, and none when no id matches |
| Models.JoinListsPairsOnce | models/Winner.js:15-18 | with unique ids in both tables the join never lists the same row twice |
| Models.JoinWinners | models/Winner.js:15-18 | the inner join lists only winners with a matching inscription, carrying its full_name and email, and lists every such pair |
| Models.GetAllWinners | models/Winner.js:14-22 | `getAll` is a permutation of that join, so each pair appears as often as the join gives it, sorted by the winner's created_at descending |
| Models.Store.constructor | models/Inscription.js:2-4 | empty tables with counters at 1 |
| Models.Store.CreateInscription | models/Inscription.js:5-23 | appends exactly `NewInscriptionRow` under the next id and returns that id; the winners table is unchanged |
| Models.Store.MarkAsWinner | models/Inscription.js:39-46 | returns true exactly when a row has the id. The table becomes `MarkRows` of the old one and the winners table is unchanged |
| Models.Store.CreateWinner | models/Winner.js:5-12 | appends exactly one row with the given inscription id, modality, institution and time, and returns its id, with no duplicate check |
| Models.MarkTwice | models/Inscription.js:39-46 | two markings of one id return the same answer and leave only the second marking |
| Models.DuplicateWinnerScenario | models/Winner.js:5-22 | two `Winner.create` calls for one inscription give two distinct rows, and `getAll` lists both with the inscription's name and email |

## Left out

- MySQL connections, pools, callbacks, `async`/`await` and the `res.status().json()` framing are replaced by in-memory tables and result datatypes. Each handler is treated as atomic, so races between concurrent requests are not modelled.
- `Models.Store.CreateInscription`, `Models.Store.MarkAsWinner`, `Models.Store.CreateWinner`: in this module `None` is a JavaScript `null`, bound as SQL NULL. An `undefined` argument makes `execute` reject the call, and that case is not modelled.
- `Registry.Database.PostPessoa`: what happens to the Node process after the uncaught throw behind `NoResponse` is not modelled.
- The 500 answers for database errors are not modelled, except the malformed-date 500 on POST `/draws`. There, `new Date(...).toISOString()` throws and the catch answers 500.
- The database's own failures are not modelled: foreign keys, a duplicate IDSORTEIO (ER_DUP_ENTRY), and column types and lengths. The schema of the tables is not part of this model.
- `Models.NewInscriptionRow`: the row's `is_winner` starts at 0 and its winner columns at null. These schema defaults cannot be seen in the source and are assumed.
- The text of dates is not modelled: ISO formatting, the `slice(0, 19)` in POST `/draws`, `DATE()` truncation, and the `split('T')` in the GET mapping. Times are natural numbers.
- SQL string comparison is exact equality. MySQL's case- and accent-insensitive collations are not modelled, and neither is the coercion of numeric strings to ids.
- Request values are JSON-like values without fractions or NaN. `parseInt` is given as its result, or `None` for NaN.
- `Registry.FindInscription`: when more than one row has the id, the result is only stated to be one with that id. With duplicate person, course or draw ids, a joined value is only stated to come from one matching row. Rows without ORDER BY come back in table order, which is this model's choice.
- `Query.SortBy`: rows with equal keys keep insertion order. MySQL leaves their order unspecified.
- GET `/inscriptions` (the listing of all inscriptions) and the other flat lookup routes are left out. They are SQL with no logic of their own.
- The draw-info logging queries against INFORMATION_SCHEMA, the console output, process start-up and the HTML landing page are I/O.
- `Registry.Database.PostPessoa`: CPF uniqueness is stated as preserved (if the table had it before the call, it has it after), not as part of `Valid`. The source has no constraint that creates it.
