# DreamCraft estimator: a verified model of its core logic

The DreamCraft estimator is a single React file, `dreamcraft-estimator-v2.jsx`.
It turns renders of a trade-show booth into three priced tiers: affordable,
mid-tier and high-end. Beneath the interface sits a small amount of
self-contained logic, and this project models it in Dafny:

- **Totals recalculation** (`recalcTotals`). A tier's fabrication subtotal,
  logistics subtotal and grand total are rebuilt from its line items and its
  logistics object. Every non-numeric value counts as 0.
- **Tier edits** in the estimate detail view: replacing, deleting and adding
  a line item, and setting one logistics figure. There is also the
  subtotal rule applied when a line row is saved, the status picker and
  `save`.
- **Response extraction** (`extractJSON`). Markdown fences are removed and
  the reply is trimmed. The text from the first `{` to the brace that brings
  the depth back to zero is delimited. The two failures are kept apart:
  "No JSON found" and "Response was cut off".
- **Refinement**. The clarifying-answers context string is built, and on
  success the refined result is swapped into the document.
- **Image normalisation**. This covers `getSafeMimeType`, the bounding-box
  arithmetic of the resize step, and the upload filter with its ten-image
  cap (`addFiles`).
- **The estimate list** of the application shell. `saveEstimate` is an
  upsert by id and `deleteEstimate` is a filter.

Modules, leaves first:

| file | module | what it holds |
|---|---|---|
| `wrappers.dfy` | `Wrappers` | `Option` and `Result` |
| `js_text.dfy` | `JsText` | the JavaScript string primitives the core uses: `trim`, `indexOf`, `split(".").pop()`, `toLowerCase` |
| `numbers.dfy` | `Numbers` | JavaScript numbers as `Finite(real)` or `NaN`, the `x || 0` and `x || 1` fallbacks, `parseFloat` |
| `pricing.dfy` | `Pricing` | tiers, `recalcTotals`, the tier-level effect of each edit, the line-row save rule |
| `extraction.dfy` | `ResponseExtraction` | fence stripping, the brace scan, and the predicate `Delimits` that specifies the outcome |
| `images.dfy` | `ImageNormalization` | MIME resolution, resize bounds, and the upload tray (class `ImageTray`) |
| `estimates.dfy` | `Estimates` | the estimate document, the detail view's editing session (class `EstimateDetail`), and the refinement context |
| `store.dfy` | `Store` | the estimate list (class `EstimateList`) |

Modelling choices:

- **Numbers.** A JavaScript number is `Finite(real)` or `NaN`. Money is
  exact real arithmetic.
- **Tiers.** `fabrication_items` and `logistics` are optional: absent reads
  as empty in `recalcTotals`. The logistics object is a sequence of
  key/value entries with unique keys, kept in insertion order, which is the
  order `Object.values` sees for string keys.
- **Edits.** The edit commands modify a working copy held by the class
  `EstimateDetail`. Each command's new state is stated through a pure
  function on tiers in `Pricing`, and the lemmas about those functions
  carry the arithmetic.
- **Extraction.** The outcome of `extractJSON` is specified by
  `Delimits(clean, r)`, and `DelimitsUnique` shows that the predicate
  determines the outcome.
- **Caller-supplied parameters.** Timestamps (`now`) and `JSON.parse`
  (`parse`) are parameters.

Where the design description of this system and the code disagree, the
model follows the code:

- **Adding a line.** `addFabItem` appends the fixed line `New Line Item`
  (quantity `"1"`, unit cost 0, subtotal 0) and does not recalculate. The
  design describes a caller-supplied line and a recalculation after every
  edit.
- **Saving a line.** An unparseable quantity counts as 1 when a line row is
  saved. The typed subtotal is kept only when the unit cost is not a
  number.
- **Refinement.** A successful refinement replaces the whole `result`, not
  selected fields of it. It sets `status` to `revised` and refreshes
  `updatedAt`.
- **Logistics keys.** Logistics keys are whatever keys the object has; the
  fixed set of nine categories is not enforced.
- **Saving an estimate.** `saveEstimate` replaces the first entry with the
  id in place, or puts a new estimate in front.
- **Two copies of the tiers.** A new estimate stores its tiers twice:
  in `result.estimates` and in `estimates`. The detail view's deep copy
  separates the two, and every edit and refinement rewrites only
  `result.estimates`. The PDF export and the list read `estimates`, so
  they keep showing the tiers as first generated (see Findings).
- **Refinement works from a snapshot.** `handleRefine` builds the revised
  document from the working copy captured when the refinement started.
  An edit committed while the request is pending is overwritten.
  `HandleRefine` takes that snapshot as a parameter.
- **Answers are a plain object.** `answers[q.id] || "Not specified"`
  reads inherited `Object.prototype` members too. An unanswered question
  whose id is `constructor` is sent with the answer
  `function Object() { [native code] }`.

## Model

| member | source | states |
|---|---|---|
| JsText.TrimStartRemovesSpace | dreamcraft-estimator-v2.jsx:174 | `trim()` removes only white space from the front, and what remains does not start with white space |
| JsText.TrimEndRemovesSpace | dreamcraft-estimator-v2.jsx:174 | `trim()` removes only white space from the back, and what remains does not end with white space |
| JsText.IndexOf | dreamcraft-estimator-v2.jsx:175 | `indexOf("{")` is -1 exactly when there is no `{`; otherwise it is a position holding `{` with none before it |
| JsText.LastSegmentAfterDot | dreamcraft-estimator-v2.jsx:122 | `split(".").pop()` of `base.ext` is `ext` whenever `ext` has no `.` |
| JsText.LastSegmentLower | dreamcraft-estimator-v2.jsx:122 | lower-casing before or after taking the last `.`-segment gives the same extension |
| JsText.LowerAsciiIdempotent | dreamcraft-estimator-v2.jsx:122 | lower-casing an already lower-cased name changes nothing |
| Numbers.ParseFloatLeadingInteger | dreamcraft-estimator-v2.jsx:456 | `parseFloat` of a decimal integer is that integer when the text after it cannot continue a decimal literal: it is empty or starts with neither a digit, nor `.`, nor the `e`/`E` of an exponent |
| Numbers.ParseFloatNoDigit | dreamcraft-estimator-v2.jsx:456 | within the modelled `parseFloat` grammar (sign, digits, one fraction part), text with no digit is NaN, so `parseFloat(qty) \|\| 1` gives 1; `Infinity` is outside that grammar (see Left out) |
| Pricing.RecalcTotals | dreamcraft-estimator-v2.jsx:186-190 | the result is consistent: each subtotal is the sum of its values with non-numeric ones counted as 0, and the grand total is their sum; every non-derived field is kept |
| Pricing.RecalcFixedPoints | dreamcraft-estimator-v2.jsx:186-190 | a tier is left unchanged by recalculation exactly when it is consistent; recalculating twice equals recalculating once |
| Pricing.RecalcOfEmptyTier | dreamcraft-estimator-v2.jsx:187-189 | missing or empty items and logistics give totals of 0, 0 and 0 |
| Pricing.ItemsSumAppend | dreamcraft-estimator-v2.jsx:187 | the fabrication sum of a concatenation is the sum of the parts |
| Pricing.ItemsSumUpdate | dreamcraft-estimator-v2.jsx:187 | replacing one line moves the sum by the new amount minus the old |
| Pricing.ItemsSumRemove | dreamcraft-estimator-v2.jsx:187 | removing one line subtracts exactly its amount |
| Pricing.SetEntry | dreamcraft-estimator-v2.jsx:558 | `logistics[logKey] = val` reads back `val`, leaves every other key as it was, overwrites in place or appends a new key, and keeps keys unique |
| Pricing.LogisticsSumSet | dreamcraft-estimator-v2.jsx:188 | setting one key moves the logistics sum by the new amount minus the old one (0 when the key was absent) |
| Pricing.ReplaceItemEffect | dreamcraft-estimator-v2.jsx:536-541 | replacing line `idx` changes only that line; the tier stays consistent and both totals move by the line's difference |
| Pricing.RemoveItemEffect | dreamcraft-estimator-v2.jsx:543-548 | deleting line `idx` removes exactly that line; the tier stays consistent and its amount leaves both totals |
| Pricing.AppendDefaultEffect | dreamcraft-estimator-v2.jsx:550-554 | adding the default line appends it and leaves all three totals as they were; a consistent tier stays consistent |
| Pricing.SetLogisticEffect | dreamcraft-estimator-v2.jsx:556-561 | setting one logistics key changes only that key; the tier stays consistent and both totals move by its difference |
| Pricing.SaveLineItemRule | dreamcraft-estimator-v2.jsx:455-458 | saving a line changes only its subtotal. With a numeric unit cost, a quantity that starts with a run of digits (followed by nothing, or by text that starts with neither a digit, nor `.`, nor `e`/`E`) gives unit cost × that whole number, and a quantity of 0 counts as one unit, since `parseFloat(qty) \|\| 1` reads 0 as 1. A quantity without digits also counts as one unit (`Infinity` aside, see Left out). A non-numeric unit cost keeps the typed subtotal |
| Pricing.CounterScenario | dreamcraft-estimator-v2.jsx:550-554 | adding a line to an empty tier and saving it as quantity "2" at 600 gives a 1200 line, a 1200 fabrication subtotal and a grand total of 1200 plus logistics |
| Pricing.DeleteThenAddReconciles | dreamcraft-estimator-v2.jsx:543-554 | after a delete, an add and an edit, the tier is consistent and reflects exactly the surviving lines and the new one |
| ResponseExtraction.DropFencesLeavesNoFence | dreamcraft-estimator-v2.jsx:174 | after the bare-fence pass no run of three backticks is left |
| ResponseExtraction.StripFencesClean | dreamcraft-estimator-v2.jsx:174 | the cleaned text has no fence and no white space at either end |
| ResponseExtraction.TaggedPlainPrefix | dreamcraft-estimator-v2.jsx:174 | the tagged-fence pass leaves text without backticks untouched |
| ResponseExtraction.FencesPlainPrefix | dreamcraft-estimator-v2.jsx:174 | the bare-fence pass leaves text without backticks untouched |
| ResponseExtraction.StripFencedBlock | dreamcraft-estimator-v2.jsx:174 | a body wrapped in a fence with the `json` tag, or in a bare fence, comes back exactly |
| ResponseExtraction.ScanObject | dreamcraft-estimator-v2.jsx:177-181 | the scan stops at the first end where the depth is back to 0, with the depth positive before it; with no such end the depth stays positive to the end of the text |
| ResponseExtraction.DelimitObject | dreamcraft-estimator-v2.jsx:175-182 | the outcome satisfies `Delimits`: "No JSON found" exactly when there is no `{`; cut-off only when the depth never returns to 0; otherwise the shortest balanced text from the first `{`, starting with `{` and ending with `}` |
| ResponseExtraction.ExtractJson | dreamcraft-estimator-v2.jsx:173-183 | the text passed to `JSON.parse`, or the error, is the one `Delimits` allows for the fence-stripped, trimmed reply |
| ResponseExtraction.DelimitsUnique | dreamcraft-estimator-v2.jsx:175-182 | `Delimits` allows exactly one outcome per cleaned text |
| ResponseExtraction.Outcome | dreamcraft-estimator-v2.jsx:176-182 | a success never coexists with a cut-off text; with no `{` the failure is "No JSON found"; with a `{` the failure is the cut-off one, and the depth stays open to the end |
| ResponseExtraction.ObjectDelimited | dreamcraft-estimator-v2.jsx:175-183 | a well-nested object after brace-free text is delimited exactly, whatever trails it |
| ResponseExtraction.SuccessDelimits | dreamcraft-estimator-v2.jsx:175-181 | from the first `{`, the first end where the depth is back to 0 with every shorter prefix open delimits the returned object |
| ResponseExtraction.PlacedObject | dreamcraft-estimator-v2.jsx:175-181 | an object text whose depth first returns to 0 at its last character, after brace-free text, is exactly what gets delimited |
| ResponseExtraction.UnclosedCutOff | dreamcraft-estimator-v2.jsx:182 | a `{` with no `}` after it, as in `{"a":1,"b":{`, fails as cut off rather than as a parse error |
| ResponseExtraction.NoBraceNoJson | dreamcraft-estimator-v2.jsx:176 | a text without `{` fails with "No JSON found" |
| ResponseExtraction.FencedObjectExtracted | dreamcraft-estimator-v2.jsx:174-183 | a reply of the form ```` ```json\n{...}\n``` ```` (tagged or bare) yields exactly the inner object |
| ResponseExtraction.QuotedBraceCloses | dreamcraft-estimator-v2.jsx:178-181 | braces inside string literals are counted too: `{"a":"}"}` is delimited as `{"a":"}` |
| ImageNormalization.SafeMimeType | dreamcraft-estimator-v2.jsx:115-125 | the MIME type is never empty: it always starts with `image/` and is never exactly `image/heic` or `image/heif` (other labels such as `image/heic-sequence` pass through unchanged) |
| ImageNormalization.DeclaredTypeWins | dreamcraft-estimator-v2.jsx:116-119 | a declared `image/` type is returned as is, except HEIC and HEIF, which become `image/jpeg` |
| ImageNormalization.ExtensionDecides | dreamcraft-estimator-v2.jsx:121-124 | without a declared image type, the extension after the last `.` is looked up in the table, with `image/jpeg` as the fallback |
| ImageNormalization.NameCaseIgnored | dreamcraft-estimator-v2.jsx:122 | the letter case of the file name does not matter |
| ImageNormalization.SafeMimeTypeStable | dreamcraft-estimator-v2.jsx:115-125 | a resolved type fed back as the declared type resolves to itself |
| ImageNormalization.PlainObjectLookup | dreamcraft-estimator-v2.jsx:123-124 | `map[ext]` on a plain object is undefined exactly when `ext` is neither an own key nor an inherited `Object.prototype` member |
| ImageNormalization.SafeMimeTypeAsWritten | dreamcraft-estimator-v2.jsx:115-125 | the function as written returns a non-string only for an extension that names an inherited member |
| ImageNormalization.AsWrittenAgrees | dreamcraft-estimator-v2.jsx:115-125 | for every other extension it agrees with the corrected `SafeMimeType` |
| ImageNormalization.InheritedExtensionLeaks | dreamcraft-estimator-v2.jsx:123-124 | `render.constructor` and `render.__proto__` make it return an inherited object where `image/jpeg` was intended |
| ImageNormalization.RoundHalfUp | dreamcraft-estimator-v2.jsx:153-154 | `Math.round` of a non-negative quotient: the nearest integer, with halves rounded up |
| ImageNormalization.FitWithin | dreamcraft-estimator-v2.jsx:150-155 | a zero side fails (and only a zero side does); bounds within 1024 are kept, with no upscaling; otherwise the longer side becomes 1024 (ties take the width branch) and the other side is its rounded scaled value; neither side grows or exceeds 1024 |
| ImageNormalization.ScaledNotLarger | dreamcraft-estimator-v2.jsx:153-154 | the rounded shorter side is at most 1024 and at most its original value |
| ImageNormalization.RoundsToUnique | dreamcraft-estimator-v2.jsx:153-154 | the half-up rounding relation has exactly one solution, so the contract of `FitWithin` determines both output sides |
| ImageNormalization.ResizeExamples | dreamcraft-estimator-v2.jsx:150-155 | 2000×1000 becomes 1024×512, and 500×400 is unchanged |
| ImageNormalization.Accepted | dreamcraft-estimator-v2.jsx:1038-1044 | a file is kept exactly when it is a non-empty `Blob` that declares an `image/` type, has a known image extension, or declares no type |
| ImageNormalization.ImageTray.AddFiles | dreamcraft-estimator-v2.jsx:1036-1062 | the tray gains one entry per accepted file, in order, up to ten; an empty result from a non-empty drop reports "no valid files", and a file turned away at the cap reports "maximum 10" |
| ImageNormalization.CappedBounded | dreamcraft-estimator-v2.jsx:1059-1061 | the tray never exceeds ten images, existing images stay in place, and its size is the smaller of the combined count and ten |
| Estimates.WithTier | dreamcraft-estimator-v2.jsx:539 | writing `result.estimates[tierKey]` changes that tier only; every other tier and every field of the document, the `estimates` copy included, is kept |
| Estimates.OnlyTargetTierChanges | dreamcraft-estimator-v2.jsx:536-561 | an edit on one tier leaves the other tiers, the id, the status, `updatedAt` and the selected tier as they were |
| Estimates.EstimateDetail.constructor | dreamcraft-estimator-v2.jsx:520-525 | the working copy starts as the estimate opened, not dirty |
| Estimates.EstimateDetail.Update | dreamcraft-estimator-v2.jsx:531-534 | the new working copy is committed and marked dirty |
| Estimates.EstimateDetail.UpdateFabItem | dreamcraft-estimator-v2.jsx:536-541 | tier `tierKey` becomes its replaced-and-recalculated version and nothing else changes; a tier without items leaves the state as it was |
| Estimates.EstimateDetail.DeleteFabItem | dreamcraft-estimator-v2.jsx:543-548 | line `idx` is removed, or nothing is removed past the end, and the tier is recalculated; nothing else changes |
| Estimates.EstimateDetail.AddFabItem | dreamcraft-estimator-v2.jsx:550-554 | the default line is appended without recalculation; nothing else changes |
| Estimates.EstimateDetail.UpdateLogistics | dreamcraft-estimator-v2.jsx:556-561 | one logistics key is set and the tier recalculated; nothing else changes |
| Estimates.EstimateDetail.UpdateStatus | dreamcraft-estimator-v2.jsx:563-566 | only the status changes, and the copy is marked dirty |
| Estimates.EstimateDetail.Save | dreamcraft-estimator-v2.jsx:606-610 | the estimate handed over is the working copy with the selected tier and `updatedAt` set; the copy stays and is no longer dirty |
| Estimates.EstimateDetail.HandleRefine | dreamcraft-estimator-v2.jsx:568-604 | without questions in the snapshot nothing changes; otherwise the extraction outcome is the one `Delimits` allows: when it parsed, the working copy becomes the snapshot revised (whatever was committed meanwhile), and otherwise it is untouched |
| Estimates.RefineFromFencedReply | dreamcraft-estimator-v2.jsx:595-598 | a reply with the object in a `json` fence revises the document: the parsed result, status `revised`, the new `updatedAt`, and the id, creation time and client kept |
| Estimates.RefineKeepsOnFailure | dreamcraft-estimator-v2.jsx:569-596 | without questions, or with no `{` in the reply, the document is left completely unchanged |
| Estimates.ExportedTierAsWritten | dreamcraft-estimator-v2.jsx:193-195 | the export prints `estimates[activeTier]`, the copy stored at creation, and returns early when it is missing |
| Estimates.ExportedTier | dreamcraft-estimator-v2.jsx:193-195 | the intended export prints the working copy's `result.estimates[activeTier]` |
| Estimates.ExportAgreesWhenCreated | dreamcraft-estimator-v2.jsx:1132-1133 | while both copies hold the same tiers, as at creation, the two readings agree |
| Estimates.StaleExport | dreamcraft-estimator-v2.jsx:193-195 | after an edit that changes a tier, the export as written still prints the tier's old value, which differs from the edited tier |
| Estimates.ExportShowsEdit | dreamcraft-estimator-v2.jsx:193-195 | reading the working copy, the export prints the tier exactly as edited |
| Estimates.JoinAppend | dreamcraft-estimator-v2.jsx:574 | `join` of two non-empty lists puts exactly one separator between their joins |
| Estimates.ContextAppend | dreamcraft-estimator-v2.jsx:572-574 | the context of more questions is the context of the first ones, a blank line, and the context of the rest |
| Estimates.AnswerText | dreamcraft-estimator-v2.jsx:573 | a non-empty answer is quoted as given; a missing or empty one reads "Not specified" unless the id names an `Object.prototype` member |
| Estimates.SingleQuestionContext | dreamcraft-estimator-v2.jsx:573 | one question gives `Q: …\nA: …`: the answer if non-empty, the printed inherited member for an unanswered id such as `constructor`, and "Not specified" otherwise |
| Estimates.InheritedAnswerLeaks | dreamcraft-estimator-v2.jsx:573 | an unanswered id naming an inherited member never reads "Not specified": `constructor` reads `function Object() { [native code] }` and `__proto__` reads `[object Object]` |
| Estimates.SameAnswerText | dreamcraft-estimator-v2.jsx:573 | two answer objects that agree on an id (the same non-empty own answer, or none in either, with an own empty entry on an `Object.prototype` name counted apart from no entry) print the same answer for it |
| Estimates.ContextDependsOnAskedOnly | dreamcraft-estimator-v2.jsx:572-574 | only the raw answers to the questions asked matter: answer objects that agree on every asked id, in the sense above, give the same context |
| Store.IndexOfId | dreamcraft-estimator-v2.jsx:1275 | `findIndex` gives the first position with the id, or -1 exactly when no entry has it |
| Store.EstimateList.constructor | dreamcraft-estimator-v2.jsx:1257 | the list starts empty |
| Store.EstimateList.SaveEstimate | dreamcraft-estimator-v2.jsx:1273-1279 | the list becomes the upsert of the estimate |
| Store.EstimateList.DeleteEstimate | dreamcraft-estimator-v2.jsx:1281-1283 | the list becomes its entries without the id |
| Store.SaveExisting | dreamcraft-estimator-v2.jsx:1275-1276 | saving an existing id replaces its first entry in place: the length is unchanged and every other entry stays where it was |
| Store.SaveNew | dreamcraft-estimator-v2.jsx:1277 | saving a new id puts it in front, one longer |
| Store.SaveThenFind | dreamcraft-estimator-v2.jsx:1273-1279 | after saving, the first entry with the id is the saved estimate |
| Store.SaveIdempotent | dreamcraft-estimator-v2.jsx:1273-1279 | saving the same estimate twice equals saving it once |
| Store.DeleteMembers | dreamcraft-estimator-v2.jsx:1281-1283 | after deleting, an entry remains exactly when it was there and has another id, so none with the id is left |
| Store.DeleteSplits | dreamcraft-estimator-v2.jsx:1281-1283 | deleting works piecewise over any split of the list, so the kept entries keep their order |
| Store.DeleteAbsent | dreamcraft-estimator-v2.jsx:1281-1283 | deleting an id no entry has changes nothing |
| Store.DeleteAfterSave | dreamcraft-estimator-v2.jsx:1273-1283 | deleting after saving is the same as deleting |

## Left out

- `parseFloat` is modelled for a sign, digits and one fraction part. Exponents, `Infinity` and hexadecimal-looking text are not modelled.
- Numbers.ParseFloatNoDigit: JavaScript parses `Infinity`, `+Infinity` and `-Infinity` (after leading white space, whatever follows) to an infinite number although they hold no digit; the model has no infinite numbers, so its `ParseFloat` gives NaN there and the lemma is stated for that grammar only.
- Pricing.SaveLineItemRule: for the same reason, a quantity starting with `Infinity` counts as one unit in the model, where JavaScript gives an infinite subtotal (or, with a unit cost of 0, NaN, so the typed subtotal is kept).
- Numbers.ParseFloatLeadingInteger: an exponent part is not modelled, so the model reads `2e3` as 2 where JavaScript reads 2000; the lemma is stated only for text after the digits that does not start with `e` or `E`, where the two agree.
- Pricing.SaveLineItemRule: for the same reason, a quantity such as `2e3` saves the unit cost times 2 in the model but times 2000 in JavaScript; the whole-number clause excludes text after the digits that starts with `e` or `E`.
- Pricing.SaveLineItemRule: the product is stated for a quantity that starts with a whole number; a quantity with a fraction part (`1.5`) goes through the same `ParseFloat` and `SaveLineItem`, but the lemma states no value for it.
- Integer-like logistics keys (`"0"`, `"12"`) come first, in ascending order, in `Object.values`; the model keeps every key in insertion order. The sums do not depend on the order.
- Money is exact real arithmetic. IEEE rounding of sums and products is not modelled.
- `JSON.parse` is a parameter of the refinement and is not modelled for extraction. The `JSON.parse(JSON.stringify(...))` deep copy is taken as an exact copy. That copy turns NaN into `null`, which `Number(x) || 0` reads as 0 anyway.
- The network call to the generator, its request body, `data.error` and the joining of the reply's content blocks are not modelled, and neither is `buildSystemPrompt`. The reply text is a parameter of `HandleRefine`.
- The `refining` flag and the alert on failure are not modelled.
- `FileReader`, image decoding, canvas drawing, JPEG encoding at quality 0.82 and the 8-second timeout are not modelled; only the resize arithmetic is kept.
- ImageNormalization.FitWithin: `Math.round` is applied to the floating-point product `height * 1024 / width`, which the model replaces by exact rational round-half-up.
- A very thin image can scale to a zero side (1×3000 becomes 0×1024). The model states this as the source does and does not reject it. The source then draws on a canvas with a zero side, whose export is `data:,`, and stops with "Canvas export failed" (lines 160-162); that step is not modelled.
- `URL.createObjectURL` failures, entry ids, previews and the asynchronous base64 conversion of `addFiles` are not modelled.
- Estimates.EstimateDetail.UpdateFabItem requires an existing index. Assigning past the end of a JavaScript array leaves holes, which the interface never does, because it passes the index of a displayed row.
- Lower-casing of file extensions covers ASCII letters only. A non-ASCII letter in an extension is left unchanged rather than lower-cased.
- `updateField` on the free-text client fields, `localStorage` loading and persistence, `fmt`/`fmtDate`, `genId` and the list sorting are not modelled. Of `generatePDF` only the choice of the printed tier is modelled, not the document it writes; the list's price column, which reads the same `estimates` copy, is not modelled.
- Creating an estimate is not modelled; the `estimates` copy it stores is a field of `Estimate`.
- The document fields the core does not touch are not modelled: the analysis, time estimate, images, request context and location.

## Findings

| source | as written | input that shows it | evidently intended | confidence | as-written member | corrected member |
|---|---|---|---|---|---|---|
| dreamcraft-estimator-v2.jsx:194-195 | The export prints `estimate.estimates[selectedTier]`, the copy stored at creation (line 1133). No edit (lines 536-561) and no refinement (line 597) updates that copy. | open an estimate, change a line with `updateFabItem`, then export the PDF: it prints the tier's old lines and totals | the export prints the tier as edited, read from `result.estimates` | not executed | Estimates.StaleExport | Estimates.ExportShowsEdit |
| dreamcraft-estimator-v2.jsx:123-124 | `map[ext]` reads a plain object literal, so an extension naming an `Object.prototype` member finds an inherited function or object. `\|\|` then returns that value instead of a MIME type. | no declared type, file name `render.constructor` (or `render.__proto__`) | only the five own keys count, anything else falls back to `image/jpeg` | not executed | ImageNormalization.InheritedExtensionLeaks | ImageNormalization.SafeMimeType |

The corrected export reading is `ExportedTier`. `ExportAgreesWhenCreated`
shows it agrees with the code as written until the first edit. The
editing session itself is modelled as written, since both readings see
the same edits.

`getSafeMimeType` is not called anywhere else in the file, so the defect
cannot show in the running program, and no other part of the model
depends on either definition. The corrected `SafeMimeType` is stated for
its own sake, and `AsWrittenAgrees` shows that the two definitions differ
only on those inherited names.
