# Porsche price calculator: feature construction, warnings and chat history

This project models the logic core of a single-page Streamlit tool that
estimates the resale price of a Porsche and offers a chat assistant. The
price itself comes from a pre-trained regression model; what the program
computes itself, and what is modelled here, is:

- the **derived fields** (vehicle age clamped at zero, kilometres per year,
  power-to-weight ratio guarded against a zero weight, log-mileage);
- the **advisory validator**: five independent threshold rules that each add
  a fixed warning, in a fixed order, without ever blocking the estimate;
- the **feature-row builder**: numeric passthrough fields, check boxes cast to
  0/1, and one-hot indicator columns for five closed selections;
- the **column alignment** (`reindex(columns=columns, fill_value=0)`) that
  projects the built row onto the model bundle's ordered column list;
- the **chat-history bookkeeping**: the session seeded with one assistant
  greeting, each pass storing the user message and then the streamed reply,
  the system instruction prepended only to the outgoing request.

Modules (one file each): `Vehicle` (the form's inputs and selectors),
`Derived`, `Validation`, `Features` (column names, values and the row),
`Alignment` (reindexing and the whole pipeline) and `Chat`.

The categorical selectors are datatypes; every column is a constructor of
`Features.Feature`, named by `Features.Name`, and the row is a
`map<string, real>` built column by column as the dictionary literal does.
The alignment returns a `seq<real>` indexed like the column list. The
current year, `log1p` and the hosted model's reply are parameters.

Behaviour of the program that the model keeps:

- only transmission (`Automatic`) and drive train (`AWD`) have a baseline
  level without a column; body type, fuel category and country give every
  option its own column;
- the country columns are prefixed `country_code_`;
- the warning texts are the program's Spanish strings
  (`Validation.Warning.Message`, listed by `Validation.WarningTexts`);
- a failed chat call leaves the user's message stored without a reply,
  because the message is appended before the call is made;
- an empty chat input starts no turn at all.

## Model

| member | source | states |
|---|---|---|
| Derived.VehicleAge | Programa1.py:191 | the age is a natural number, at least `current_year - registration_year`, and either that difference or 0: the difference clamped at zero, never negative even for a future registration year |
| Derived.KmPerYear | Programa1.py:287 | the result times `age + 1` gives back the mileage, so the denominator is never zero; for age 0 it is the mileage itself; for a non-negative mileage it lies between 0 and the mileage |
| Derived.PowerToWeight | Programa1.py:288 | for a positive weight the result times the weight is the power; for a weight of 0 or less it is 0 instead of a division error; it is non-negative for non-negative power |
| Derived.FormInputsAvoidGuards | Programa1.py:127-191 | for every value the widgets allow, the registration year is not in the future (so the age is exactly the difference and at most `current_year - 1950`) and the weight is at least 800 (so the ratio is exactly power over weight and positive) |
| Validation.ValidateContract | Programa1.py:197-212 | a warning is in the result if and only if its rule's condition holds; the warnings come in rule order with none repeated, at most five; the result is empty exactly when no condition holds |
| Validation.ValidateIsSelect | Programa1.py:197-212 | the appending validator equals the rule table filtered by the firing conditions, in table order |
| Validation.WarningTexts | Programa1.py:197-212 | the warning list holds one text per warning, in the same order, and two different warnings never share a text, so the texts are pairwise distinct as well |
| Validation.MessageInjective | Programa1.py:199-212 | the five warning texts are pairwise different |
| Validation.HighMileageExample | Programa1.py:197-212 | mileage 150000, power 500, weight 1600, 6 cylinders, 3000 cc, registered 2018 give exactly the high-mileage warning |
| Validation.PowerAndCylindersExample | Programa1.py:197-212 | mileage 50000, power 900, weight 1600, 0 cylinders, 3000 cc, registered 2018 give exactly the high-power then the displacement-without-cylinders warning |
| Features.BodyTypeColumn | Programa1.py:307-313 | each body-type column is named `body_type_` followed by the selector's option text |
| Features.TransmissionColumn | Programa1.py:315-316 | each transmission column is named `transmission_` followed by the option text |
| Features.DriveTrainColumn | Programa1.py:318-319 | each drive-train column is named `drive_train_` followed by the option text |
| Features.FuelCategoryColumn | Programa1.py:321-327 | each fuel column is named `fuel_category_` followed by the option text |
| Features.CountryCodeColumn | Programa1.py:329-335 | each country column is named `country_code_` followed by the country code |
| Features.NameInjective | Programa1.py:291-343 | no two columns of the row share a name, so no entry of the dictionary overwrites another |
| Features.BuiltExactlyNonBaseline | Programa1.py:291-343 | the builder emits a column for every feature except the two baselines, `Automatic` transmission and `AWD` drive train |
| Features.RowColumn | Programa1.py:291-343 | a feature's column is a key of the row exactly when the feature is not a baseline, and it then holds that feature's value |
| Features.RowKeys | Programa1.py:291-343 | every key of the row is the name of a non-baseline feature, and every such name is a key |
| Features.BodyTypeOneHot | Programa1.py:307-313 | every body type has a column; exactly the selected one is 1 and all others are 0 |
| Features.FuelCategoryOneHot | Programa1.py:321-327 | every fuel category has a column; exactly the selected one is 1 and all others are 0 |
| Features.CountryCodeOneHot | Programa1.py:329-335 | every country has a column; exactly the selected one is 1 and all others are 0 |
| Features.TransmissionIndicators | Programa1.py:315-316 | `Automatic` has no column; the other levels have one, the one that is 1 is the selected level (so at most one is 1), and all are 0 exactly when `Automatic` is selected |
| Features.DriveTrainIndicators | Programa1.py:318-319 | `AWD` has no column; the other levels have one, the one that is 1 is the selected level (so at most one is 1), and all are 0 exactly when `AWD` is selected |
| Features.CheckboxColumns | Programa1.py:299-337 | each of the six check boxes is a column holding 1 exactly when ticked and 0 exactly when not |
| Features.PassthroughColumns | Programa1.py:292-341 | the nine numeric form fields are columns holding the entered values unchanged |
| Features.DerivedColumns | Programa1.py:287-342 | the age column is non-negative and the clamped year difference, km-per-year times `age + 1` is the mileage, power-to-weight is 0 for a non-positive weight and power over weight otherwise, and log-mileage is `log1p` of the mileage |
| Features.RowOfValue | Programa1.py:291-343 | once a column has been entered, the row built so far holds that feature's value under its name |
| Alignment.Align | Programa1.py:346 | the aligned vector has one entry per listed column; a listed column that was built holds the built value, a listed column that was not built holds 0 |
| Alignment.Frame | Programa1.py:346 | the reindexed frame's key set is exactly the listed columns, nothing missing and nothing extra, and each key holds the aligned value at its position |
| Alignment.AlignIgnoresUnlisted | Programa1.py:346 | two rows that agree on the listed columns align to the same vector: keys not in the list are dropped without effect |
| Alignment.AlignDropsUnlisted | Programa1.py:346 | removing all unlisted keys before aligning changes nothing |
| Alignment.FeatureVectorCells | Programa1.py:291-346 | position i of the model input holds the value of the non-baseline feature named `columns[i]`, and 0 when `columns[i]` names no feature or only a baseline |
| Chat.NewSession | Programa1.py:64-67 | a new session holds one message, from the assistant, and already has the alternating shape |
| Chat.JoinedAppend | Programa1.py:88 | joining the pieces of a stream split anywhere gives the joined halves, concatenated |
| Chat.Request | Programa1.py:78-79 | the request is one message longer than the history, starts with the system instruction, and continues with the stored history unchanged |
| Chat.Turn | Programa1.py:74-90 | the history is only appended to; an empty input sends nothing and stores nothing; otherwise the user message is stored first, the request is the system instruction plus the history including it, and a completed stream adds the joined reply as an assistant message (two messages in all) while a failed call adds nothing more |
| Chat.TurnKeepsNoSystem | Programa1.py:75-90 | a turn never stores a system-role message, although its request starts with one |
| Chat.AnsweredTurnKeepsAlternation | Programa1.py:75-90 | an answered turn keeps the greeting-then-user/assistant alternation |
| Chat.ReplayNoSystem | Programa1.py:64-90 | from a new session, no sequence of passes ever stores a system message |
| Chat.ReplayAnswered | Programa1.py:64-90 | from a new session, n answered passes give a history of 1 + 2n messages alternating assistant and user, starting and ending with the assistant |

## Left out

- Page layout, styling, logo check, the chat display loop and the marketplace link panel (Programa1.py:16, 35-56, 69-71, 76, 97-105, 361-389): presentation only.
- The warning banner that joins the warnings with ` | ` (Programa1.py:214-215): display only; no operation consumes the warnings.
- The widgets' [min, max] clamping (Programa1.py:113-189): enforced by the widget library; `Vehicle.WithinFormBounds` states the bounds and is used only by `Derived.FormInputsAvoidGuards`.
- Reading the current year from the clock (Programa1.py:107): the year is a parameter.
- Loading the model bundle, cached and again uncached (Programa1.py:18-23, 275-278): file I/O of an opaque artifact; the column list is a parameter.
- Scaling, prediction and the currency formatting of the estimate (Programa1.py:349-354): calls into fitted library objects whose behaviour is not visible, and float formatting.
- The numerics of `np.log1p`: it is a parameter `log1p: real -> real`.
- Floating point: all fractional quantities are `real`, so rounding of the divisions is not modelled.
- The hosted chat-completion call and its streaming (Programa1.py:29-30, 83-88): network I/O; its outcome is the `Chat.Reply` parameter (the pieces of the stream, or a failure).
- The system instruction text (prompts.py): static content; it is the `systemPrompt` parameter.
