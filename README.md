# CSV anonymiser: a Dafny model of its core

The application is a small Flask service. A user uploads a CSV file, picks columns, and
gives a secret key. Each picked column is pseudonymised: every non-blank cell is replaced
by the first 16 hex characters of its HMAC-SHA256 under the key. The user then downloads
the rewritten file and asks for cleanup. This project models the code around the libraries
in `app.py`:

- the cell rule `anonymize_value` (module `Cells`);
- the header normalisation (leading U+FEFF marks removed, then surrounding whitespace) and the Python whitespace rules
  it relies on (module `Text`);
- the table rewrite loop of the anonymise route (module `Tables`), as a specification
  function `ColumnsAnonymized`, the loop `AnonymizeSelected` proved against it, and lemmas
  that say what the rewrite does to every cell;
- the anonymised file name, the delimiter label, and `os.path.join` (module `Naming`);
- the encoding and delimiter fallbacks of the reader (module `Ingest`);
- the in-memory registry `file_storage` and the upload, anonymise, download and cleanup
  routes (module `Routes`). `Registry` is a class whose `storage` map the route methods
  update in place. Its invariant `Valid` says where each record's files live, that each
  record has at least one normalised column, and that an anonymised output carries the
  derived name.

Foreign code enters as parameters:
- HMAC-SHA256 is an `Hmac` function whose results are 64 lowercase hex characters.
- `pd.read_csv` is a `Reader`. It takes the path, the encoding, the delimiter, and whether
  `skipinitialspace` is set, and returns a table or one of pandas' errors.
- `secure_filename` is a `sanitize` function.
- The detector's encoding and the sniffer's delimiter are input values.
- The `uuid4` handle is an input that must be fresh.

Behaviour of the code that the model keeps:
- Upload reads with `skipinitialspace=True`, but the anonymise re-read does not. The reader
  therefore receives the flag, and no claim is made that both reads give the same table.
- pandas calls a frame empty when it has no rows or no columns. So the "no columns" check
  of the upload route can never fire; `CheckParsed` proves that it never reports it.
- A requested name that labels two columns after normalisation (e.g. `a` and ` a`) makes
  `df[col]` a DataFrame. `anonymize_value` then gets a whole column and pandas raises.
  The route reports that as an anonymisation error, and so does the model.
- A name requested twice is hashed twice, because the loop walks the request list.
  `ColumnsAnonymizedCells` states this with `AnonymizeRepeated`.
- Column names may repeat after normalisation, and the "no columns" branch at app.py:132
  can never fire because the `df.empty` test at app.py:128 already covers it. The model
  keeps both facts.
- `Routes.DownloadScenario` replays the download and cleanup tests (test_app.py:231-290) on
  a one-column file: upload `mydata.csv`, download before anonymising (refused), anonymise,
  download as `mydata-anonymized.csv`, clean up, then download again (unknown handle). Its
  assertions are proved from the route contracts.

## Model

| member | source | states |
|---|---|---|
| `Cells.IsBlank` | app.py:82 | `str(value).strip() == ''` holds exactly when every character is Python whitespace (the empty text included) |
| `Cells.IsBlankCell` | app.py:82 | a cell passes through `anonymize_value` exactly when it is missing or all whitespace |
| `Cells.AnonymizeValue` | app.py:80-88 | a missing, empty or whitespace-only cell is returned unchanged; any other cell becomes the 16-character lowercase-hex prefix of the keyed digest of (key, text), so it depends on nothing else; blankness is preserved both ways |
| `Cells.AnonymizeRepeatedBlank` | app.py:82-83 | however often a column is requested, its blank cells stay as they are |
| `Cells.AnonymizeRepeatedPseudonym` | app.py:84-88 | a non-blank cell requested at least once ends up a 16-character hex string |
| `Text.LStripBom` | app.py:75 | left-stripping U+FEFF removes exactly the leading run of byte-order marks |
| `Text.LStrip` | app.py:75 | `lstrip()` removes exactly the leading run of Python whitespace |
| `Text.RStrip` | app.py:75 | `rstrip()` removes exactly the trailing run of Python whitespace |
| `Text.Strip` | app.py:82 | `strip()` leaves no leading or trailing whitespace and is empty exactly when the text is all whitespace (the blank test of `anonymize_value`) |
| `Text.NormalizeHeader` | app.py:75 | a normalised column name never begins or ends with whitespace and is no longer than the raw one |
| `Text.StripOfPadded` | app.py:75 | `strip()` of a trimmed name with whitespace on both sides gives back exactly the name |
| `Text.NormalizeHeaderOfPadded` | app.py:199 | leading byte-order marks followed by whitespace, a trimmed name and trailing whitespace normalise to exactly the name |
| `Text.NormalizeHeaderOfClean` | app.py:199 | a trimmed name without a leading byte-order mark is left unchanged |
| `Text.NormalizeHeaderDropsBom` | test_app.py:505-518 | the header `\ufeffname` becomes `name` |
| `Text.NormalizeHeaderDropsBomAndPadding` | app.py:75 | the header `\ufeff name ` becomes `name` |
| `Tables.NormalizeHeaders` | app.py:199 | every column name is normalised in place; cells, row count and column count are unchanged; every resulting name is trimmed |
| `Tables.CountOf` | app.py:203 | the number of occurrences of a name is positive exactly when `col in df.columns` |
| `Tables.IsEmptyFrame` | app.py:128 | `df.empty`, defined as either axis having length zero; holds exactly when no row holds a cell |
| `Tables.AnonymizeStep` | app.py:203-204 | one loop pass: a name not in the header leaves the table as it is; the pass fails exactly when the name labels more than one column, with that name as the error; on success the header and the row count are kept |
| `Tables.AnonymizeStepCells` | app.py:203-204 | a pass on a name that labels one column anonymises every cell under that name and leaves every other cell as it is |
| `Tables.AnonymizeColumn` | app.py:204 | rewriting one column anonymises exactly that column's cells; the header, the row count and every other cell are unchanged |
| `Tables.ColumnsAnonymized` | app.py:202-204 | on success, the loop over the requested names keeps the header and the row count |
| `Tables.AnonymizeSelected` | app.py:202-204 | the imperative loop computes exactly `ColumnsAnonymized`, failing at the first ambiguous requested name |
| `Tables.ColumnsAnonymizedFails` | app.py:202-204 | the rewrite fails exactly when some requested name labels more than one column |
| `Tables.ColumnsAnonymizedCells` | app.py:202-204 | on success, each cell is anonymised once per occurrence of its column's name in the request; unrequested columns and requested names absent from the table change nothing |
| `Tables.ColumnsAnonymizedOnceOrNot` | app.py:202-204 | an unrequested column is copied as is; each cell of a column requested once becomes `anonymize_value` of it |
| `Naming.LowerAscii` | app.py:107 | `str.lower()` on one character: an ASCII capital becomes the letter 32 code points above it, every other character is kept |
| `Naming.IsCsvExtension` | app.py:107 | a four-character extension is `.csv` after lower-casing exactly when it is a dot followed by `c`, `s`, `v` each in either case |
| `Naming.EndsWithCsv` | app.py:107 | `name.lower().endswith('.csv')` holds exactly when the last four characters are a dot and `c`, `s`, `v` in either case |
| `Naming.AnonymizedFilename` | app.py:207-213 | the download name always ends in `-anonymized.csv`; what precedes it is the original name, shortened by exactly four characters when the name ends in `.csv` in any letter case |
| `Naming.AnonymizedFilenameOfCsv` | app.py:209-210 | for every base, `base + ext` with `ext` a case-insensitive `.csv` gives `base-anonymized.csv` |
| `Naming.AnonymizedFilenameOfOther` | app.py:211-213 | a name without the extension keeps all of its characters before the suffix |
| `Naming.AnonymizedFilenameOfMydata` | test_app.py:231-251 | `mydata.csv` is downloaded as `mydata-anonymized.csv` |
| `Naming.AnonymizedFilenameOfDoubleExtension` | app.py:209-210 | only one trailing extension is removed: `a.csv.CSV` gives `a.csv-anonymized.csv` |
| `Naming.DelimiterLabel` | app.py:152-155 | `,` `;` tab `|` are reported as comma, semicolon, tab, pipe; any other delimiter as itself |
| `Naming.DelimiterLabelInjective` | app.py:152-155 | different delimiters always get different labels |
| `Naming.PathJoin` | app.py:114 | `os.path.join` ends with the leaf; an absolute leaf replaces the folder; a relative leaf follows the folder, with one `/` inserted exactly when the folder is non-empty and does not already end in `/` |
| `Ingest.ChooseEncoding` | app.py:33-38 | the encoding is never empty: the detector's answer when it has one, else `utf-8` |
| `Ingest.ChooseDelimiter` | app.py:43-52 | the sniffed delimiter, or a comma when sniffing raised |
| `Routes.CheckUploadRequest` | app.py:100-108 | upload requests are refused in order: no file part, empty name, name not ending in `.csv` in any letter case; each error occurs exactly in its case |
| `Routes.CheckParsed` | app.py:125-134 | pandas' empty-data error, any other read error, then an empty frame are refused in that order; only a frame with rows and columns is accepted, with its header normalised; the no-columns error is never produced |
| `Routes.CheckAnonymizeRequest` | app.py:169-183 | anonymise requests are refused in order: no body, missing or unknown handle, no columns, empty key; each error occurs exactly in its case |
| `Routes.Reanonymized` | app.py:189-204 | the anonymise route's table: it exists exactly when the re-read (stored encoding and delimiter, no `skipinitialspace`) parses and the rewrite succeeds; it keeps the row and column counts of the file read, under the normalised header |
| `Routes.Registry.StoredPath` | app.py:114 | the stored path ends with the file name and, for a handle that is not an absolute path, starts with the upload folder, with room for the handle and its separator in between |
| `Routes.Registry.OutputFor` | app.py:209-217 | the output's download name is `AnonymizedFilename` of the uploaded name, and its path ends with that name and, for a handle that is not an absolute path, starts with the upload folder |
| `Routes.Registry.constructor` | app.py:25 | the registry starts empty |
| `Routes.Registry.Upload` | app.py:97-161 | the request checks, then a zero-byte file, then the read checks, decide the error; a rejected upload leaves the registry unchanged; an accepted one adds exactly one record with the sanitised name, the normalised columns, the chosen encoding and delimiter, and no output; it reports the columns, the row count, the encoding and the delimiter label |
| `Routes.Registry.Anonymize` | app.py:164-233 | the request checks decide the error; a rejected or failing request leaves the registry unchanged; a successful one only sets the record's output to the derived path and name, and the table it writes is the file re-read with the stored encoding and delimiter, its header normalised and its requested columns rewritten |
| `Routes.Registry.Download` | app.py:236-252 | download fails for an unknown handle, then for a handle not yet anonymised; otherwise it offers the stored output, named by `AnonymizedFilename` of the uploaded name |
| `Routes.Registry.Cleanup` | app.py:255-271 | cleanup removes the handle if present, leaves every other record alone, and always succeeds |

## Left out

- HTTP transport is not modelled: routing, JSON bodies, status codes, the index page and
  its template, `send_file` and its MIME type. Flask's own refusal of a body that is not
  JSON is also out, and so are JSON fields of the wrong type. A missing or empty request
  body is `None`.
- File-system effects are not modelled: `file.save`, `os.remove`, `os.path.exists`,
  `os.makedirs`, the upload folder choice and the 16 MB size cap. One consequence: a read
  that raises during upload leaves the saved file on disk (app.py:158-161), and the model
  does not show it.
- `Routes.Registry.Upload`: exceptions raised by `file.save`, by the encoding detector or
  by `os.path.getsize` are not modelled. Only the reader's outcomes are.
- `Routes.Registry.Anonymize`: failures of `df.to_csv` are not modelled. The written table
  is returned as a value; its CSV text (UTF-8, comma, quoting) is not.
- `pd.read_csv` is not modelled: tokenising, quoting, skipping bad lines, replacing decode
  errors, `skipinitialspace`, and renaming duplicate raw headers. Each read is an input.
- `chardet.detect` and `csv.Sniffer` are not modelled; only their fallbacks are. So the
  model makes no claim about which delimiter a quoted file yields.
- The HMAC-SHA256 computation is not modelled. The claim that different keys give
  different pseudonyms holds only with high probability and is not stated.
- `uuid.uuid4` and `secure_filename` are inputs. Freshness of the handle is a precondition
  of `Registry.Upload`.
- `Ingest.ChooseEncoding`: the branch that returns `ascii` and Latin-1 names unchanged
  (app.py:36-37) has the same result as the general case, so it is folded into it.
- `Naming.LowerAscii`: only ASCII capitals are lowered; other characters that Python lower-cases are kept. Every use is a comparison with `.csv`, where this changes nothing.
- `Naming.AnonymizedFilename`: `str.lower()` is modelled on ASCII letters only. For the
  `.csv` test this is exact, since no other character lower-cases to `.`, `c`, `s` or `v`.
- `Tables.ColumnsAnonymized`: an ambiguous requested column is a failure even in a table
  with no rows. There pandas' `apply` might not call `anonymize_value`. The re-read of an
  accepted upload has rows in practice.
- Concurrency between requests is out: each route runs to completion on its own.
