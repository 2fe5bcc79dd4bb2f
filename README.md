# DDT import engine — Dafny model

This project models the delivery-note ("DDT", *documento di trasporto*) import engine of
`DR_Contab_ImportDDT`. The engine turns the text export of one supplier into a `DocumentoToImport`:
a header plus an ordered list of `RigaDet` line items. It has four parts:

- **Format detection** (`DetectFormat`, the C# `DeterminaFormatoTracciato`). It looks for the tokens
  `INNERHOFER`, `WUERTH`, `SVAI` and `SPAZIO`, in that order and ignoring case. `ReadDDT` applies it to the
  **file name**, and only when no format is given.
- **The reader registry** (`FormatReaders`). It maps the keys `Innerhofer`, `Wuerth`, `Spazio` and `Svai`
  to their readers. A key that is not registered fails, as the C# dictionary lookup does.
- **Three delimited readers** (Innerhofer, Wuerth, SVAI). They share one pass, `ReadDelimited`, which is
  a loop over the lines of the text. Each vendor supplies a `Layout`:
  - the fewest `;`-separated fields a row must have (9, 40, 21);
  - the header update (`ApplyHeader`), run only while `DocNumero` is still null, so only on the first
    accepted row;
  - the item builder (`MakeRiga`), with the vendor's fixed column indexes.
- **The Spazio placeholder** (`ReadSpazio`). It returns the Spazio identity and no items, whatever the text.

The .NET library calls are modelled as follows:
- `String.Split(char)` is `Strings.Split`, proved to be the unique inverse of `Join`.
- `String.Trim`, `Char.IsWhiteSpace` and `String.IsNullOrWhiteSpace` are modelled with the full .NET
  whitespace set.
- `Contains(_, OrdinalIgnoreCase)` is `ContainsIgnoreCase`.
- `decimal.Parse`, `int.Parse` and `DateTime.Parse` are **parameters**: the record `Parsers` holds three
  partial functions. `None` stands for the exception the real call throws. No reader catches exceptions,
  so one such `None` on an accepted row makes the whole read fail (`ParseFailure`).
- C# `null` strings are `Option<string>` (`None` is null). `decimal` is `real`. `DateTime` is a tick count
  (`MinValue` is 0).

The loop `ReadDelimited` is proved equal to the fold `ReadDelimitedSpec`. The lemmas in
`ReaderProperties` hold for every layout. `VendorProperties` restates them for the three vendors.

Some facts about the readers that the model keeps as they are:
- The readers do not match columns by header name. Every column is taken at a fixed index.
- A read that yields no items is not rejected: it returns a document with no items.
- Innerhofer numbers each item by its physical line index, and Wuerth by a parsed column.
- Format detection is a set of substring tests on the file name, never on the text.

## Model

| member | source | states |
|---|---|---|
| `Strings.Split` | DDT/Program.cs:124 | `Split` gives at least one field. No field contains the separator, and joining the fields with the separator gives back the input. |
| `Strings.IsWhiteSpace` | DDT/Program.cs:130 | Definition, no contract: the characters `Char.IsWhiteSpace` accepts. |
| `Strings.IsNullOrWhiteSpace` | DDT/Program.cs:130 | Definition, no contract: `String.IsNullOrWhiteSpace` on a non-null string. `Strings.BlankIffTrimsToEmpty` states its meaning. |
| `Strings.SplitUnique` | DDT/Program.cs:133 | Any list of separator-free parts that joins to `s` is exactly `Split(s, c)`. |
| `Strings.SplitCount` | DDT/Program.cs:136 | A string splits into one more field than it has separators. |
| `Strings.TrimStart` | DDT/Program.cs:141 | The result is a suffix of the input. The dropped prefix is all whitespace, and the result does not start with whitespace. |
| `Strings.TrimEnd` | DDT/Program.cs:141 | The result is a prefix of the input. The dropped suffix is all whitespace, and the result does not end with whitespace. |
| `Strings.Trim` | DDT/Program.cs:149 | The result is a factor of the input lying between an all-whitespace prefix and an all-whitespace suffix, and neither starts nor ends with whitespace. |
| `Strings.BlankIffTrimsToEmpty` | DDT/Program.cs:130 | A line counts as blank (`IsNullOrWhiteSpace`) exactly when trimming leaves nothing. |
| `Strings.ContainsIgnoreCase` | DDT/Program.cs:100 | True exactly when the token occurs at some position of the text, letters compared after upper-casing. |
| `Strings.ShiftMatch` | DDT/Program.cs:100 | A match in the tail of a text is a match one position later in the whole text, and back. |
| `FormatDetection.RegistryMatchesKeys` | DDT/Program.cs:71-77 | Every format is registered under its key, and every registered key is some format's key. |
| `FormatDetection.FormatReaders` | DDT/Program.cs:71-77 | Definition, no contract: the `_formatReaders` dictionary, from key to format. `FormatDetection.RegistryMatchesKeys` states what it holds. |
| `FormatDetection.DetectFormat` | DDT/Program.cs:98-110 | The result's token occurs in the name, and no token of higher priority occurs. The result is `None` exactly when none of the four tokens occurs. |
| `FormatDetection.DetectionIsPriorityChoice` | DDT/Program.cs:98-110 | The first format in priority order whose token occurs is the one detected. |
| `FormatDetection.DetectedKeyIsRegistered` | DDT/Program.cs:88-92 | The key detection yields is always in the registry and maps back to the detected format. |
| `FormatDetection.SampleNameIsInnerhofer` | DDT/Program.cs:387 | The sample export name `Innerhofer DDT 23-24.csv` is detected as Innerhofer. |
| `FormatDetection.WuerthBeforeSvai` | DDT/Program.cs:100-105 | A name that mentions both Wuerth and SVAI, and not Innerhofer, is detected as Wuerth. |
| `FormatDetection.WuerthSvaiSampleName` | DDT/Program.cs:100-105 | The single name `wuerth-svai.csv` is detected as Wuerth: it matches `WUERTH` and nowhere matches `INNERHOFER`. |
| `VendorLayouts.Initial` | DDT/Program.cs:116-121 | Each reader starts from `DocTipo = "DDT"`, no number and no items (the same holds at lines 167-172, 220-225 and 277-282). |
| `VendorLayouts.ApplyHeader` | DDT/Program.cs:139-143 | The header update fails exactly when the date column does not parse. It sets the number from the number column and the date from the parsed date. Items and supplier identity are left unchanged. |
| `VendorLayouts.InnerhoferHeader` | DDT/Program.cs:139-143 | Innerhofer's header update leaves the customer code, the customer name and both destination lines as they were. |
| `VendorLayouts.WuerthHeader` | DDT/Program.cs:184-192 | Wuerth sets the customer code, name and street from the trimmed fields 0-2. The place line is the untrimmed `f3 f4 (f5)`. |
| `VendorLayouts.SvaiCustomerName` | DDT/Program.cs:241-246 | The SVAI customer name begins with the first company line. It equals that line exactly when the second line is empty; otherwise a space and the second line follow. |
| `VendorLayouts.PlaceLine` | DDT/Program.cs:189 | Definition, no contract: the interpolated place line `a b (c)`, also at :248. `VendorLayouts.WuerthHeader` and `VendorLayouts.SvaiHeader` state where its parts come from. |
| `VendorLayouts.SvaiHeader` | DDT/Program.cs:237-249 | SVAI sets the composed customer name, the trimmed street from field 4, and the untrimmed place line `f5 f6 (f7)`. |
| `VendorLayouts.InnerhoferRiga` | DDT/Program.cs:146-155 | An Innerhofer item exists exactly when fields 4, 5 and 6 parse as decimals. It is numbered by its physical line `i` and takes its quantity from field 5 and its supplier code from field 0. |
| `VendorLayouts.WuerthRiga` | DDT/Program.cs:194-209 | A Wuerth item exists exactly when field 9 parses as an int and fields 18, 19, 21 and 23 parse as decimals. Its row number is the parsed field 9. |
| `VendorLayouts.SvaiRiga` | DDT/Program.cs:251-266 | An SVAI item exists exactly when fields 13-19 parse as decimals. Its row number stays 0. |
| `VendorLayouts.MakeRiga` | DDT/Program.cs:146-155 | Definition, no contract: the item builder of each delimited vendor (also :194-209 and :251-266). It chooses `InnerhoferRiga`, `WuerthRiga` or `SvaiRiga`, whose contracts hold the properties. |
| `DelimitedReaders.LayoutOf` | DDT/Program.cs:71-77 | Each delimited vendor's layout is valid. It uses the vendor's minimum field count, header update and item builder. |
| `DelimitedReaders.ApplyHeaderIsHeaderUpdate` | DDT/Program.cs:139-143 | A successful header update of any delimited vendor sets the number and keeps the items and the supplier identity. |
| `DelimitedReaders.AcceptedFrom` | DDT/Program.cs:127-136 | The accepted lines are listed in strictly increasing order. Each is in range, not blank, and has enough fields. |
| `DelimitedReaders.AcceptedFromComplete` | DDT/Program.cs:127-136 | No accepted line is left out of `AcceptedFrom`. |
| `DelimitedReaders.ReadRow` | DDT/Program.cs:130-158 | Definition, no contract: one loop iteration. The `ReaderProperties` step lemmas (`SkippedRowChangesNothing`, `AcceptedRowStep`) state what it does. |
| `DelimitedReaders.ReadFrom` | DDT/Program.cs:127-159 | Definition, no contract: the rest of the pass from one physical line on. The `ReaderProperties` lemmas are about it. |
| `DelimitedReaders.ReadDelimitedSpec` | DDT/Program.cs:113-162 | Definition, no contract: the whole delimited read, starting at line 1 from the reader's initial document. `DelimitedReaders.ReadDelimited` is proved equal to it, and the `VendorProperties` lemmas are about it. |
| `DelimitedReaders.ReadDelimited` | DDT/Program.cs:113-162 | The imperative reader loop returns exactly the document, or the error, that the pass specification gives (the same loop is at lines 164-215 and 217-272). |
| `ReaderProperties.SkippedRowChangesNothing` | DDT/Program.cs:130-136 | A blank line or a short row leaves the document unchanged. |
| `ReaderProperties.AcceptedRowStep` | DDT/Program.cs:139-158 | An accepted row either fails on its own line, or appends its item and sets the number. The header changes only if the number was still unset. |
| `ReaderProperties.SkippedLineStep` | DDT/Program.cs:130-136 | Skipping a line changes neither the rest of the read nor which rows have to parse. |
| `ReaderProperties.AcceptedLineStep` | DDT/Program.cs:139-158 | After an accepted row that parses, the read continues with a header that is filled, and the rows still to parse are the later ones. |
| `ReaderProperties.FailingLineStep` | DDT/Program.cs:142-154 | An accepted row that does not parse ends the whole read with an error on that line. |
| `ReaderProperties.RowsParseUncons` | DDT/Program.cs:139-158 | The rows from an accepted line on parse exactly when that line's header (if still pending), its item, and all later items parse. |
| `ReaderProperties.ItemsFollowAcceptedRows` | DDT/Program.cs:146-158 | Each accepted line contributes exactly one item, in line order, after the items already present. |
| `ReaderProperties.ItemsFromNoItems` | DDT/Program.cs:146-158 | From a document with no items, the read yields exactly one item per accepted line, in line order. |
| `ReaderProperties.AppendedItem` | DDT/Program.cs:158 | Appending the item of an accepted line keeps the item/row correspondence. |
| `ReaderProperties.HeaderFromFirstRow` | DDT/Program.cs:139-143 | The header is written at most once. A document whose number is set keeps its header; otherwise the header is what the first accepted row writes. |
| `ReaderProperties.SucceedsIffRowsParse` | DDT/Program.cs:142-154 | A read succeeds exactly when every accepted row parses. A failure names an accepted line. |
| `ReaderProperties.OnlyAcceptedLinesMatter` | DDT/Program.cs:127-136 | Two line lists that accept the same lines, and agree on them, read the same. |
| `VendorProperties.AcceptedIffEnoughSeparators` | DDT/Program.cs:130-136 | A row is accepted exactly when it does not trim to empty and has at least `MinFields - 1` semicolons. |
| `VendorProperties.AcceptedRowsInRange` | DDT/Program.cs:127 | Every accepted row of a text lies after its first line and inside the text. |
| `VendorProperties.ItemsOfAcceptedRows` | DDT/Program.cs:146-158 | A successful vendor read has one item per accepted row, each that row's item. |
| `VendorProperties.VendorItem` | DDT/Program.cs:146-155 | For a vendor layout, the item of an accepted line is what the vendor's item builder makes from its fields. |
| `VendorProperties.ItemsInLineOrder` | DDT/Program.cs:146-158 | A successful read has as many items as accepted rows. Item k is the item of the k-th accepted line, and line 0 is never one of them. |
| `VendorProperties.SucceedsIffAcceptedRowsParse` | DDT/Program.cs:139-158 | A read succeeds exactly when the first accepted row's date parses and every accepted row's item parses. |
| `VendorProperties.HeaderOfFirstAcceptedRow` | DDT/Program.cs:139-143 | The header is the reader's initial document when no row is accepted, and otherwise what the first accepted row writes into it. |
| `VendorProperties.FixedSupplierFields` | DDT/Program.cs:167-172 | Whatever the text, a successful read keeps `DocTipo = "DDT"` and the reader's supplier identity. |
| `VendorProperties.NumberAndDateOfFirstAcceptedRow` | DDT/Program.cs:139-143 | `DocNumero` and `DocData` come from the first accepted row. With no accepted row they stay null and `MinValue`. |
| `VendorProperties.CustomerAndDestination` | DDT/Program.cs:184-192 | Wuerth and SVAI take the customer and destination from the first accepted row (place line untrimmed; also :237-249). SVAI leaves the customer code null. Innerhofer, and any read with no accepted row, leave the customer code, the customer name and both destination lines null. |
| `VendorProperties.RowNumbers` | DDT/Program.cs:148 | Innerhofer numbers items by physical line (at least 1, strictly increasing). Wuerth uses the parsed field 9; SVAI leaves 0. |
| `VendorProperties.FirstLineIgnored` | DDT/Program.cs:127 | Two texts that agree from line 1 on read the same. |
| `VendorProperties.SkippedLinesIgnored` | DDT/Program.cs:130 | Replacing a skipped line by another skipped line does not change the result. |
| `ImportDdt.ReadSpazio` | DDT/Program.cs:274-285 | The Spazio reader returns, for any text, the Spazio identity and `DocTipo = "DDT"`, with no items and no header data. |
| `ImportDdt.ReadSpec` | DDT/Program.cs:92 | Definition, no contract: the call of the registered reader, either Spazio or a delimited read. `ImportDdt.ReadDDT` states the dispatch to it. |
| `ImportDdt.IsNullOrEmpty` | DDT/Program.cs:85 | Definition, no contract: `string.IsNullOrEmpty` on an optional string. It is the condition for detecting the format in `ImportDdt.ReadDDT`. |
| `ImportDdt.ReadDDT` | DDT/Program.cs:81-96 | With a null or empty format, `ReadDDT` detects from the file name: no token gives `FormatUndetermined`, otherwise the detected reader's result. With a format given, a registered key gives its reader's result and any other key gives `UnknownFormat`. |

## Left out

- `Program.Main` (console menu, `File.Exists`, `File.ReadAllText`) and `WriteDDTToFile` (file output, currency formatting): I/O outside the engine.
- The `Console.WriteLine` progress messages in `ReadDDT`: console output only.
- The insides of `decimal.Parse`, `int.Parse` and `DateTime.Parse`: culture-dependent library code, so they are parameters of the model. Decimal precision, the 32-bit range of `int` and calendar rules are left inside them.
- Properties that no reader assigns (`Fornitore_AgileDesc`, `FornitoreCodice`, `FornitorePIVA`, `FornitoreCodiceFiscale`, `Cliente_AgileID`, `Cliente_PIVA`, `Cliente_CodiceFiscale`, `DocBarcode`, the document-level order references, `Note`, `Trasporto*`; on items `ArticoloCodiceProduttore`, `Articolo_AgileID`, `IVACodice`, `DestinazioneMerce`). They would always keep their defaults.
- `Strings.ContainsIgnoreCase`: folds only the ASCII letters `a`-`z`. The non-ASCII case mappings of `OrdinalIgnoreCase` are not modelled.
- A null `fileName` or `text`. A null `fileName` throws `NullReferenceException` only when the format is detected. A null `text` throws in the three delimited readers, and the Spazio reader ignores it. The model takes both as non-null strings, as `Main` supplies them.
- `ParseFailure(line)`: carries the physical line of the failing row. The C# exceptions carry no line, and which of several bad fields in one row throws first is not modelled.
- The three reader methods of the C# class are one loop here, run with a per-vendor `Layout`. The loop body is the same in all three.
