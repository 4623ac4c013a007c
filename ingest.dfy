/** What the upload and anonymise routes take from the CSV reader. Encoding detection,
    delimiter sniffing and `pd.read_csv` are foreign code: their results enter the model as
    values, and only the fallbacks the application adds around them are modelled. */
module Ingest {
  import opened Base
  import opened Tables

  /** `detect_encoding`: the detector's answer, or `utf-8` when it has none. */
  function ChooseEncoding(detected: Option<string>): (encoding: string)
    ensures encoding != ""
    ensures detected.Some? && detected.value != "" ==> encoding == detected.value
    ensures detected.None? || detected.value == "" ==> encoding == "utf-8"
  {
    match detected
    case Some(e) => if e != "" then e else "utf-8"
    case None => "utf-8"
  }

  /** `detect_delimiter`: the sniffed delimiter, or a comma when sniffing raised. */
  function ChooseDelimiter(sniffed: Option<char>): (delimiter: char)
    ensures sniffed.None? ==> delimiter == ','
    ensures sniffed.Some? ==> delimiter == sniffed.value
  {
    match sniffed
    case Some(d) => d
    case None => ','
  }

  /** What one call of `pd.read_csv` yields: a table with its raw header, pandas'
      `EmptyDataError`, or any other exception. */
  datatype ParseOutcome = Parsed(table: Table) | EmptyData | ParseFailed

  /** `pd.read_csv` as a function of the stored path, the encoding, the delimiter and
      whether `skipinitialspace` is set. */
  type Reader = (string, string, char, bool) -> ParseOutcome
}
