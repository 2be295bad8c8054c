# Farm advisory engine of the NASA POWER crop dashboard

The dashboard lets a farmer tick crops, click a point on a map and choose a date range. It then
fetches daily agro-meteorological series for that point from the NASA POWER API. From them it
derives rule-based irrigation, UV and spraying advisories, shows one metric card and one line chart
per parameter, and hands everything to a chat model for free-text advice.

This project models the deterministic core of that flow in Dafny:

- `Weather`: the payload. It is an ordered mapping from parameter code to the chronological series
  of daily readings, held as a sequence of `Entry(code, readings)` with distinct codes. The module
  also holds the catalogue of display labels, the thirteen requested codes, the `-999.0`
  missing-value marker, and dictionary lookup (`data.get`).
- `Suggestions`: `generate_suggestions`. It has three fixed-threshold rules, applied in the order
  precipitation (`PRECTOTCORR`, low below 5), UV index (`ALLSKY_SFC_UV_INDEX`, high at 8 or more)
  and wind speed (`WS10M`, strong above 5). Each rule reads only the first reading of its
  parameter and is skipped when the parameter is missing or its series is empty. An advisory is a
  datatype constructor that carries the deciding reading, not a Portuguese sentence.
- `Display`: the projection loop of the submit handler. It yields one card (label, first reading)
  and one chart (whole series) per parameter with a non-empty series, in payload order. The label
  is the catalogue name when the code is known, otherwise the raw code.
- `Crops`: the crop-selection list. It holds the ticked crops in the fixed order Milho, Soja,
  Algodão.
- `ApiDate`: `format_date_to_api`, which writes a date as `YYYYMMDD`. A parser is added as its
  partner so the format can be stated as a bijection.
- `Wrappers`: the `Option` type shared by the modules.

Readings are Dafny `real`s. The code only compares them with 5 and 8, so no floating-point
arithmetic is involved. The per-day date keys of each series are dropped, because the code only
uses the order of the values.

`app.py` never filters the provider's `-999.0` missing-value marker, either before the rules
(app.py:56-57) or before the cards and charts (app.py:192-197). The model follows the code: `SentinelIsAnOrdinaryReading` and
`MissingValuesAreDisplayed` prove that the marker is treated as an ordinary number. So a payload
whose only UV reading is `-999.0` yields a "safe UV" advisory and a card showing `-999.0`.

## Model

| member | source | states |
|---|---|---|
| Weather.Get | app.py:54 | A lookup finds something exactly when some entry has the code. What it finds is that entry's series; with distinct codes it is the series of every entry that has the code. |
| Weather.Readings | app.py:54 | `data.get(code, {})`: a code with no entry reads as an empty series, a code with an entry reads as that entry's series, and the series is non-empty exactly when the code is present with readings. |
| Weather.FirstReading | app.py:54-56 | A rule's deciding reading exists exactly when the parameter is present with a non-empty series, and it is that series' first reading. |
| Weather.FirstReadingOnlySeesFirst | app.py:56 | Payloads that agree on the codes, on which series are empty and on every first reading give the same deciding reading for every code. |
| Weather.FirstReadingOnlySeesItsEntry | app.py:54-56 | The deciding reading for a code depends only on that code's entry: not on the other parameters, nor on the entry's position. |
| Weather.CatalogCoversRequest | app.py:35-49 | The catalogue labels exactly the thirteen codes requested from the provider (line 176), and the three rule parameters are among them. |
| Suggestions.PrecipitationAdvice | app.py:54-60 | Gives one advisory if precipitation has a reading and none otherwise. The advisory carries the first reading and is the low/irrigate variant exactly when that reading is below 5. |
| Suggestions.UVAdvice | app.py:62-68 | Gives one advisory if the UV index has a reading and none otherwise. The advisory carries the first reading and is the high/protect variant exactly when that reading is 8 or more. |
| Suggestions.WindAdvice | app.py:70-76 | Gives one advisory if wind speed has a reading and none otherwise. The advisory carries the first reading and is the strong/no-spraying variant exactly when that reading is above 5. |
| Suggestions.ConcatenatedContributions | app.py:52-78 | Appending at most one advisory per rule, in the order precipitation, UV, wind, gives a list in strict rule order. A rule is present in it exactly when it contributed, and every advisory keeps its justification. |
| Suggestions.GenerateSuggestions | app.py:51-78 | The list is in strict rule order. Its length is the number of rule parameters with a non-empty series, so at most 3. A rule appears exactly when its parameter is present with readings. Every advisory carries that parameter's first reading and warns exactly when the reading crosses the rule's threshold. |
| Suggestions.AdvisoryOfRule | app.py:51-78 | For every rule whose parameter has a non-empty series, the list holds that rule's advisory. It carries the first reading and warns exactly when that reading crosses the threshold. |
| Suggestions.FirstReadingsDecide | app.py:56-72 | Proof step for the two lemmas below, not a separate finding: it follows from the definition that two payloads whose three rule parameters have the same deciding readings get the same advisory list. |
| Suggestions.LaterReadingsIrrelevant | app.py:56-72 | Changing any reading after the first of a series leaves the advisories unchanged. |
| Suggestions.OtherParametersIrrelevant | app.py:51-78 | Payloads with the same entries for the three rule parameters get the same advisories, whatever other parameters they hold and in whatever order. |
| Suggestions.SentinelIsAnOrdinaryReading | app.py:55-76 | A first reading of -999.0 is compared like any number. For precipitation it gives the low/irrigate advisory; for UV and wind it gives the safe advisory, each carrying -999.0. |
| Suggestions.ThresholdBoundaries | app.py:57-73 | A first precipitation reading of exactly 5 gives the sufficient advisory, a first UV reading of exactly 8 gives the high advisory, and a first wind reading of exactly 5 gives the suitable-for-spraying advisory. |
| Suggestions.LowPrecipitationExample | app.py:54-58 | A payload holding only the precipitation series [3, 4] gives exactly [LowPrecipitation(3)]. |
| Suggestions.CalmWindExample | app.py:70-76 | A payload holding only the wind series [5] gives exactly [SuitableForSpraying(5)]. |
| Display.Label | app.py:191 | `parameter_names.get(parameter, parameter)`: every requested code is shown under its catalogue label, which differs from the raw code; a code the catalogue does not know is shown as itself. |
| Display.Cards | app.py:190-197 | Each card is built by the helper `CardOf` from one parameter. There are never more cards than parameters. Every card's metric is the first point of its chart, and the chart is never empty. |
| Display.ProjectDisplay | app.py:190-197 | The loop over the payload produces exactly the cards of the recursive projection `Cards`, so every fact proved about `Cards` below holds of what the handler shows. |
| Display.CardsOfConcatenation | app.py:190-197 | The cards of two payload pieces joined together are the cards of the first piece followed by those of the second, so every parameter is projected on its own and in order. |
| Display.CardPosition | app.py:190-197 | A parameter with an empty series adds no card; any other adds exactly one, placed right after the cards of the earlier parameters. That card is labelled with the catalogue name (or the raw code when unknown), shows the first reading and charts the whole series. |
| Display.CardsMonotone | app.py:190 | A longer prefix of the payload never has fewer cards. |
| Display.CardsInPayloadOrder | app.py:190-197 | Of two parameters with readings, the earlier one's card comes first. |
| Display.EveryCardFromAParameter | app.py:190-197 | Every card comes from some parameter with a non-empty series, at the position its order in the payload gives it. |
| Display.MissingValuesAreDisplayed | app.py:192-197 | A series made only of -999.0 markers still gets a card showing -999.0 and a chart of every marker. |
| Crops.SelectedCrops | app.py:109-117 | Each crop is in the selection exactly when its box is ticked. The selection is in checkbox order Milho, Soja, Algodão without repeats, and it is empty (the warning case) exactly when no box is ticked. |
| Crops.SelectedNames | app.py:109-117 | The names appended are the ticked crops' checkbox names in checkbox order: "Milho", "Soja" and "Algodão" each appear exactly when their box is ticked. |
| ApiDate.FormatDateToApi | app.py:18-19 | The result is exactly eight decimal digits. |
| ApiDate.ParseFormattedDate | app.py:18-19 | Reading a formatted date back as year, month and day gives the original date. |
| ApiDate.FormatParsedDate | app.py:18-19 | Every eight-digit string naming a valid date with a four-digit year is the format of that date, so the format is a bijection onto those strings. |
| ApiDate.PickerBoundsFormat | app.py:138-139 | The earliest and latest dates the pickers allow format as 20010101 and 20241010. |

## Left out

- `generate_chatgpt_insights` (app.py:80-102): a call to a hosted chat-completion service whose prompt embeds a Python dictionary dump; its output cannot be specified.
- The API key and client setup (app.py:11-14): configuration and secrets.
- The NASA POWER request, the URL it is built from, the status check and the JSON extraction of `properties.parameter` (app.py:176-184, 202-204): network I/O. The model starts from the extracted payload. Only the requested code list (line 176) is kept, as a constant.
- Rendering: `display_card`, `plot_graph` and matplotlib styling (app.py:16, 21-33), `st.info` for each advisory (app.py:187-188), the text area (app.py:199-201), headers, warnings and success messages. Only the data handed to the card and chart is modelled.
- The Portuguese advisory sentences and Python's float-to-string formatting: each advisory is a constructor that carries the reading it interpolates.
- The plot-size selector (app.py:122-134), the map and click capture (app.py:141-162), the date pickers (app.py:150-155) and the submit form (app.py:164-172): UI input collection outside the advisory core.
- Non-finite readings (NaN, infinities): the provider's JSON does not carry them, and `real` has none.
- ApiDate.FormatDateToApi: requires a year of 1000 or later. Below that, `strftime('%Y')` zero-pads on some platforms and not on others. The app's pickers only offer years 2001 to 2024 (app.py:138-139).
