# Tire measurement entry form, modelled in Dafny

This project models the measurement-entry dialog `ModalInputsNeu` of a
fleet-management dashboard. Each time a tire is serviced, the dialog records
five values: the odometer reading (Odometro), the remaining tread depth
(Remanente), the air pressure (PresionAire), the applied torque
(TorqueAplicado) and the assignment date (fechaAsignacion). Beside them it
keeps five error flags: `kmError`, `presionError`, `torqueError`, `fechaError`
and `fechaFormatoError`.

The model has these parts:

- `Wrappers.dfy`: the usual `Option` type.
- `JsText.dfy`: the pieces of JavaScript string meaning the form depends on.
  - `\d` matches only the ASCII digits.
  - A digit string has a numeric value.
  - The string operator `<` compares lexicographically (`LexLess`).
    Dafny's own `<` on sequences means "proper prefix", so this order is
    defined here and proved to be a strict total order. It is also proved
    equal to the comparison as ECMA-262 defines it (section 7.2.13,
    IsLessThan).
- `DateFormat.dfy`: `validarFormatoFecha`.
  - The function is written as a regex match with capture groups against the
    pattern `^(\d{4})-(\d{2})-(\d{2})$`, followed by the source's length checks.
  - It is proved to accept exactly the ten-character `YYYY-MM-DD` shapes.
  - On two well-formed dates, string `<` is proved to be the calendar order.
- `TreadInput.dfy`: the Remanente keystroke handler.
  - Commas are replaced by dots.
  - The filter `^\d*(\.?\d{0,2})?$` is implemented greedily. It is proved
    equal to the language of the regular expression.
  - `parseFloat` is modelled on the texts the filter accepts.
  - Every amount with two decimals is proved to type in and read back
    exactly.
- `MeasurementForm.dfy`: the dialog.
  - The class `ModalInputsNeu` holds the ten state fields. Its methods are the
    reset effect (`Open`), the four change handlers and `Submit`.
  - The pure function `SubmitVerdict` specifies the six ordered submit checks.
    `Submit` runs them step by step with early returns and is proved to agree
    with `SubmitVerdict`.
  - Lemmas state what the order of the checks means, what an accepted record
    satisfies, and that an empty date never blocks.

Some behaviour of the code is easy to miss, and the model keeps it as written:

- **Odometer input.** The component has no input and no setter for Odometro
  other than the reset. So after `Open`, Odometro always equals
  `initialOdometro`, and a save against the same prop never fails the
  odometer check (`KmNeverBlocksAfterReset`).
- **Reset.** The reset clears four of the five flags and leaves
  `fechaFormatoError` as it was (`Open`, `StaleFormatFlag`).
- **Live date check.** The date handler checks the lower bound on the empty
  date too. So clearing the date sets `fechaError` whenever the registration
  date is non-empty (`ChangeFecha`). The submit gate skips that check for an
  empty date.
- **Tread filter.** The handler's filter also lets the lone `"."` through.
  If the handler receives `"."`, it stores `parseFloat(".")`, which is NaN,
  and Submit does not check Remanente. The model keeps that case as
  `Tread.NotANumber`.
- **Calendar ranges.** The format check does not check month and day ranges.
  So `"2024-13-45"` is well formed, and the calendar-order lemma holds for
  such strings too.

Inputs the component reads from the environment become parameters:

- "today" is the `today` string. The source computes it from the clock as
  `new Date().toISOString().slice(0, 10)`.
- The registration date is `reg`.
- `initialOdometro` is the current prop.
- `onSubmit` becomes the `sent` result of `Submit`, and `onClose` becomes its
  `closed` result.

## Model

| member | source | states |
|---|---|---|
| `DateFormat.ValidDateFormat` | src/components/dashboard/integrations/modal-inputsNeu.tsx:46-53 | true exactly for ten-character strings with `-` at positions 4 and 7 and ASCII digits at every other position; false for the empty string |
| `DateFormat.MatchPieces` | src/components/dashboard/integrations/modal-inputsNeu.tsx:49-51 | an anchored match of digit groups and literals yields one capture per group, each of that group's length and made of ASCII digits |
| `DateFormat.DatePatternMatch` | src/components/dashboard/integrations/modal-inputsNeu.tsx:49-52 | the anchored pattern matches exactly the date-shaped strings and then captures year, month and day, so the group-length test of line 52 never fails after a match |
| `DateFormat.TakeDigits` | src/components/dashboard/integrations/modal-inputsNeu.tsx:49 | `\d{n}` succeeds exactly when the first n characters exist and are digits, and splits off exactly those |
| `DateFormat.DateOrderIsCalendarOrder` | src/components/dashboard/integrations/modal-inputsNeu.tsx:75-81 | on two well-formed dates, string `<` holds exactly when the first date is earlier by year, then month, then day |
| `JsText.LexLess` | src/components/dashboard/integrations/modal-inputsNeu.tsx:75-81 | string `<`: a proper prefix is below the longer string, and no string is below one of its own prefixes (itself included) |
| `JsText.LexLessIsStringComparison` | src/components/dashboard/integrations/modal-inputsNeu.tsx:75 | the model of string `<` holds exactly when the left string is a proper prefix of the right one, or is smaller at the first index where they differ |
| `JsText.LexLessIrreflexive` | src/components/dashboard/integrations/modal-inputsNeu.tsx:75 | no string is below itself |
| `JsText.LexLessTransitive` | src/components/dashboard/integrations/modal-inputsNeu.tsx:75-81 | string `<` is transitive |
| `JsText.LexLessTotal` | src/components/dashboard/integrations/modal-inputsNeu.tsx:194-196 | of two different strings one is below the other |
| `JsText.EmptyIsLeast` | src/components/dashboard/integrations/modal-inputsNeu.tsx:81 | `""` is below every non-empty string and above none, so `"" > today` is false |
| `JsText.LexLessDigits` | src/components/dashboard/integrations/modal-inputsNeu.tsx:75-81 | on digit strings of one length, string `<` is numeric `<` |
| `TreadInput.ReplaceCommas` | src/components/dashboard/integrations/modal-inputsNeu.tsx:101 | the result has the input's length, has a dot where the input has a comma, and is otherwise equal to the input |
| `TreadInput.AcceptsTread` | src/components/dashboard/integrations/modal-inputsNeu.tsx:103 | the greedy filter accepts exactly the language of `^\d*(\.?\d{0,2})?$`; an accepted text holds only digits and dots |
| `TreadInput.ParseTread` | src/components/dashboard/integrations/modal-inputsNeu.tsx:104 | the empty text reads as 0 and a digit string as its integer value; the result is not a number exactly for `"."`; every other result is non-negative with at most two decimals |
| `TreadInput.ParseDottedTread` | src/components/dashboard/integrations/modal-inputsNeu.tsx:103-104 | a text of digits, a dot and at most two digits, other than the lone dot, is accepted and reads as its integer part plus its fraction (`".5"` as 0.5, `"5."` as 5) |
| `TreadInput.FormatHundredthsRoundTrip` | src/components/dashboard/integrations/modal-inputsNeu.tsx:103-104 | every non-negative amount with two decimals has a text that the filter accepts and that reads back as exactly that amount |
| `MeasurementForm.SubmitVerdict` | src/components/dashboard/integrations/modal-inputsNeu.tsx:55-84 | the guard chain of the submit gate; a verdict other than acceptance names a check whose condition really holds |
| `MeasurementForm.SubmitStopsAtFirstFailure` | src/components/dashboard/integrations/modal-inputsNeu.tsx:55-84 | the gate stops at a check exactly when that check fails and every earlier one passes; it accepts exactly when no check fails |
| `MeasurementForm.AcceptedRecordIsValid` | src/components/dashboard/integrations/modal-inputsNeu.tsx:55-86 | an accepted record has odometer at least the initial one, pressure in [25, 50], torque in [110, 150], and a date that is empty or well formed, not before a non-empty registration date and not after today, also by the calendar order when those bounds are well formed |
| `MeasurementForm.EmptyDateNeverBlocks` | src/components/dashboard/integrations/modal-inputsNeu.tsx:69-81 | with an empty date the gate accepts exactly when the three numeric checks pass |
| `MeasurementForm.OutOfCalendarRangeIsRefused` | src/components/dashboard/integrations/modal-inputsNeu.tsx:75-83 | once the numeric checks pass, a well-formed date before a well-formed registration date or after a well-formed today is refused by a range check |
| `MeasurementForm.ModalInputsNeu.constructor` | src/components/dashboard/integrations/modal-inputsNeu.tsx:17-27 | on mount the four numbers hold their initial props, the date is empty and all five flags are false |
| `MeasurementForm.ModalInputsNeu.Open` | src/components/dashboard/integrations/modal-inputsNeu.tsx:32-44 | the four numbers take their initial props, the date becomes empty, four flags clear and `fechaFormatoError` keeps its value |
| `MeasurementForm.ModalInputsNeu.ChangeRemanente` | src/components/dashboard/integrations/modal-inputsNeu.tsx:100-105 | only Remanente may change; a text refused after comma replacement leaves it as it was, an accepted one sets it to the parsed value |
| `MeasurementForm.ModalInputsNeu.ChangePresion` | src/components/dashboard/integrations/modal-inputsNeu.tsx:124-132 | the value is stored and `presionError` holds exactly when it lies outside [25, 50]; nothing else changes |
| `MeasurementForm.ModalInputsNeu.ChangeTorque` | src/components/dashboard/integrations/modal-inputsNeu.tsx:155-163 | the value is stored and `torqueError` holds exactly when it lies outside [110, 150]; nothing else changes |
| `MeasurementForm.ModalInputsNeu.ChangeFecha` | src/components/dashboard/integrations/modal-inputsNeu.tsx:184-201 | the text is stored; `fechaFormatoError` holds exactly for a non-empty malformed text; `fechaError` holds exactly when the text is after today or before a non-empty registration date |
| `MeasurementForm.ModalInputsNeu.Submit` | src/components/dashboard/integrations/modal-inputsNeu.tsx:55-88 | field values never change; the verdict is `SubmitVerdict` of the current values; the current record is sent and the dialog closed exactly on acceptance; the failing check sets only its own flag, the format flag clears once its check passed and the range flag once all passed; other flags keep their values |
| `MeasurementForm.ExampleSession` | src/components/dashboard/integrations/modal-inputsNeu.tsx:32-88 | opened with odometer 1000 and nothing else, the first save is refused on the pressure and flags it; after pressure 30 and torque 120 with no date the save sends exactly `{1000, 0, 30, 120, ""}` and closes |
| `MeasurementForm.KmNeverBlocksAfterReset` | src/components/dashboard/integrations/modal-inputsNeu.tsx:32-88 | after opening with some initial odometer, any use of the four inputs followed by a save against that odometer leaves the odometer flag clear, and a sent record carries that odometer |
| `MeasurementForm.StaleFormatFlag` | src/components/dashboard/integrations/modal-inputsNeu.tsx:32-44 | a format error raised in one session is still set after the dialog reopens with an empty date |

## Left out

- `src/lib/auth/authApi.ts`: three HTTP calls through axios and an environment variable. They are network I/O with no logic of their own.
- Rendering: the JSX layout, the MUI `Dialog` and `TextField` properties, styling, `useMediaQuery` and `fullScreen` are presentation only.
- Helper texts and the rule that 0 shows as a blank field (lines 99, 123, 154, 135, 166, 209-215) only change what is displayed.
- The clock: "today" is a parameter. Computing it with `toISOString().slice(0, 10)` in UTC is not modelled.
- `ChangePresion`, `ChangeTorque`: the parameter is the number `Number(e.target.value)` has already produced. Parsing and its NaN result are not modelled; pressure, torque and odometer are exact reals, not IEEE doubles.
- The browser's value sanitization of the `type="number"` and `type="date"` inputs (lines 98, 122, 153, 182) is not modelled. The handlers take any text, and `Tread.NotANumber` describes the handler on the text `"."` only. A browser may never deliver that text.
- `ParseTread`: models `parseFloat` only on the texts the filter accepts, as exact decimals. Rounding to a double is not modelled.
- `LexLess`: compares Dafny characters (Unicode scalar values). JavaScript compares UTF-16 code units. The two orders differ only between characters above U+FFFF and characters from U+E000 to U+FFFF, which do not occur in dates.
- `Open`: the reset is one atomic transition. React's effect scheduling and re-render timing are not modelled. The effect also runs again when an initial prop changes while the dialog is open, and that is the same transition.
- The `open` prop and the dialog's own dismissal belong to the parent view. `Submit` reports the `onClose` call as its `closed` result.
