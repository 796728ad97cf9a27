# Rule-of-three calculator — Dafny model

A model of the calculation and history core of a browser "rule of three"
calculator. Given three known quantities `a`, `b`, `c` and a mode, it computes
the unknown `x`: in **direct** mode (`a/b = c/x`) as `(c·b)/a`, in **inverse**
mode (`a·b = c·x`) as `(a·b)/c`. Each successful calculation is recorded at the
front of a history of at most five entries, which is mirrored to one storage
entry and can be cleared after confirmation; the newest entry's inputs pre-fill
the fields when the page loads.

The page's global variables become an explicit, immutable application state
(`App.AppState`: mode, history, storage entry) and every user action becomes a
pure transition:

- `wrappers.dfy` — `Option`, used for a field that holds no number (NaN), an
  absent storage entry and an empty lookup.
- `rounding.dfy` — `x.toFixed(2)` read back as a number, over exact reals.
- `proportion.dfy` — modes, the validation gate, the two formulas, the worked examples.
- `history.dfy` — the calculation record, the capped newest-first insertion,
  loading and saving the storage entry, and lemmas about many insertions.
- `app.dfy` — the state, the actions (`SetMode`, `Calculate`, `ClearHistory`,
  `LoadLastExample`, `LoadExample`), arbitrary action sequences and the
  invariants they keep.

Numbers are `real`; a field whose text does not parse is `None`. The clock and
the confirmation dialog are parameters (`timestamp`, `confirmed`).

The validation test `!a || !b || !c || a === 0` is modelled as written; its last
disjunct is implied by `!a`, and `Proportion.Accepts` states the simplified gate:
three present, non-zero numbers. A zero input is rejected even where it would
not be a divisor; the model keeps that behaviour. The truthiness test lets
`Infinity` through; the model's reals have no infinity (see Left out).

## Model

| member | source | states |
|---|---|---|
| `Proportion.Accepts` | script.js:69-76 | The gate lets a calculation through exactly when all three inputs are numbers and none is zero; the redundant `a === 0` test changes nothing. |
| `Proportion.AcceptedDivisorNonZero` | script.js:69-93 | Once the gate accepts, the divisor of either formula (`a` direct, `c` inverse) is non-zero. |
| `Proportion.Solve` | script.js:81-93 | The formula of each mode yields a value completing the proportion: `a·x = b·c` (direct) or `a·b = c·x` (inverse). |
| `Proportion.SolveUnique` | script.js:81-93 | Any value that completes the proportion equals the formula's result, so the formulas compute the one correct `x`. |
| `Proportion.FormulaText` | script.js:81-94 | The stored formula text is non-empty and names the mode's divisor (`A` direct, `C` inverse). |
| `Proportion.Example` | script.js:134-153 | The worked example of each mode passes the gate; direct (2, 10, 5) solves to 25 and inverse (4, 6, 2) to 12. |
| `Rounding.Round2` | script.js:104-110 | The shown and stored result is a whole number of hundredths within 0.005 of `x` and keeps `x`'s sign. |
| `Rounding.Round2OfCents` | script.js:110 | A value that already is a whole number of hundredths is stored unchanged. |
| `Rounding.Round2Idempotent` | script.js:104-110 | Rounding the stored value again gives the stored value: displayed and persisted results agree. |
| `Rounding.Round2Odd` | script.js:104-110 | Rounding is symmetric about zero. |
| `History.Cap` | script.js:116-118 | Truncation keeps a prefix of the list of length `min(n, 5)`. |
| `History.Push` | script.js:115-118 | The new record is at index 0, the older entries follow in their old order, a short history grows by one and a full one drops exactly its oldest entry. |
| `History.Load` | script.js:3 | An absent storage entry loads as the empty history; a present one loads as stored. |
| `History.Save` | script.js:120 | Saving then loading gives back the same history. |
| `History.PushAllNewestFirst` | script.js:115-118 | After any non-empty series of recordings the history is the five newest of all records, newest first. |
| `History.PushAllBounded` | script.js:116-118 | No number of recordings makes a history of at most five exceed five. |
| `History.PushAllEvictsOld` | script.js:115-118 | Five or more recordings evict every earlier entry, leaving the last five recorded in reverse order. |
| `App.Init` | script.js:1-3 | The page starts in direct mode, keeps the storage entry as it is and takes its history from it (empty when nothing is stored), so history and storage agree. |
| `App.SetMode` | script.js:42-43 | Choosing a mode sets it and leaves the history and storage untouched. |
| `App.Calculate` | script.js:63-122 | Rejected inputs leave the state unchanged and clear the result; accepted ones show the rounding of the unique solution of the proportion and record it via the capped insertion, saved to storage. |
| `App.CalculateKeepsInv` | script.js:115-120 | A calculation keeps the history within five entries and mirrored to storage. |
| `App.CalculateRecord` | script.js:108-118 | The stored record carries the current mode, the exact inputs and timestamp, and the rounded result equal to the shown one; older entries follow in order, with growth by one or eviction of the oldest. |
| `App.ClearHistory` | script.js:185-190 | With confirmation the history is emptied and the storage entry removed; without it nothing changes. |
| `App.ClearThenReload` | script.js:185-188 | After a confirmed clear, a reload starts with an empty history. |
| `App.LoadLastExample` | script.js:157-164 | There is a pre-fill exactly when the history is non-empty, and it is the inputs of the newest entry. |
| `App.LastAfterCalculate` | script.js:157-164 | Pre-filling after a successful calculation gives back exactly that calculation's inputs. |
| `App.ReloadPrefillsLast` | script.js:19-21 | After a successful calculation, reloading the page from storage pre-fills the fields with exactly that calculation's inputs. |
| `App.LoadExample` | script.js:134-153 | The example button fills the example of the mode currently selected, which the gate accepts. |
| `App.ExampleCalculates` | script.js:134-153 | Calculating the current mode's example shows and stores 25 (direct) or 12 (inverse). |
| `App.SetModeKeepsRecords` | script.js:42-43 | Changing the mode does not alter the mode of any stored record. |
| `App.ApplyKeepsInv` | script.js:115-120 | Every single user action keeps the history within five entries and mirrored to storage. |
| `App.RunKeepsInv` | script.js:115-120 | Any sequence of user actions keeps those invariants. |
| `App.RunKeepsMode` | script.js:2 | Only choosing a mode changes the current mode. |

## Left out

- DOM access, event wiring, button highlighting and all HTML built for the explanation, the history list and the error message (script.js:6-39, 46-59, 70-73, 85-100, 125-131, 167-182): user-interface plumbing with no state effect beyond what is modelled.
- `clearFields` (script.js:125-131): it only empties the input and result fields, which are not part of the state.
- `parseFloat` of the field text (script.js:64-66): a field is given as `Some(number)` or `None` for NaN; parsing text is not modelled.
- `Infinity` inputs: the code accepts them (they are truthy); the model works over reals, which have no infinity, and NaN/Infinity propagation is not modelled.
- Exact arithmetic: the products and quotients of the formulas (script.js:83, 93) are exact reals, so the model has no double rounding and no overflow to `Infinity` from finite inputs (direct mode with a = 1, b = c = 1e200 gives `Infinity` in the page, which `JSON.stringify` saves as `null`, so that history does not survive a reload; in the model the result is 1e400 and the save/load round trip holds).
- `Rounding.Round2`: models `toFixed(2)` on the exact real value, not on the binary double (so `1.005` rounds to `1.01` here while a double rounds to `1.00`), and not the exponent form `toFixed` uses for magnitudes of 10^21 and above.
- JSON serialisation and the browser storage API (script.js:3, 120, 188): the storage entry is the list itself (`Some`) or absent (`None`); malformed stored text is not modelled.
- `App.Init`: the page does not cut a stored history longer than five at load time, so the invariant is promised only when the stored list has at most five entries.
- The clock (`toLocaleTimeString`, script.js:79) and the confirmation dialog (script.js:186): passed in as the `timestamp` string and the `confirmed` flag.
- `setMode` with a string other than `direct`/`inverse` (script.js:42): the toggle only produces these two, so `Mode` is a closed two-case type; any other string would act as inverse in the code.
