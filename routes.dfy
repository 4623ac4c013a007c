/** The upload registry `file_storage` and the four routes that read and change it:
    upload, anonymise, download and cleanup. Transport details (JSON bodies, status codes,
    templates, `send_file`) and file-system effects are left to the caller; each route
    returns a success value or the error it would report. */
module Routes {
  import opened Base
  import opened Text
  import opened Cells
  import opened Tables
  import opened Naming
  import opened Ingest

  /** The upload handle, `str(uuid.uuid4())`. */
  type Handle = string

  /** The file part of an upload request: its client-side name and its size in bytes. */
  datatype FileUpload = FileUpload(filename: string, size: nat)

  /** `anonymized_filepath` and `anonymized_filename` of a record. */
  datatype Output = Output(filepath: string, filename: string)

  /** One entry of `file_storage`; `output` is present once the upload has been anonymised. */
  datatype Record = Record(
    filepath: string,
    originalFilename: string,
    columns: seq<string>,
    encoding: string,
    delimiter: char,
    output: Option<Output>)

  /** The reply of a successful upload. */
  datatype UploadSummary = UploadSummary(
    handle: Handle, columns: seq<string>, rowCount: nat, encoding: string, delimiter: string)

  datatype UploadError =
    | NoFileProvided     // 'No file provided'
    | NoFileSelected     // 'No file selected'
    | NotCsvFile         // 'Only CSV files are allowed'
    | EmptyFile          // 'File is empty'
    | NoDataRows         // 'CSV file has no data rows'
    | NoColumns          // 'CSV file has no columns'
    | EmptyOrInvalidCsv  // 'CSV file is empty or invalid'
    | ProcessingFailed   // 'Error processing file: ...'

  /** The fields of the anonymise request body; an absent `file_id` or `secret_key` is
      the empty string and an absent `columns` the empty list. */
  datatype AnonymizeRequest = AnonymizeRequest(fileId: string, columns: seq<string>, secretKey: string)

  /** The reply of a successful anonymise (`anonymized_columns`) together with the table
      the route writes to the anonymised path. */
  datatype AnonymizeReply = AnonymizeReply(anonymizedColumns: seq<string>, written: Table)

  datatype AnonymizeError =
    | NoDataProvided       // 'No data provided'
    | InvalidFileId        // 'Invalid or expired file ID'
    | NoColumnsSelected    // 'No columns selected for anonymization'
    | NoSecretKey          // 'No secret key provided'
    | AnonymizationFailed  // 'Error during anonymization: ...'

  datatype DownloadError =
    | UnknownFileId     // 'Invalid or expired file ID'
    | NotYetAnonymized  // 'File has not been anonymized yet'

  /** The request checks of the upload route, in the order they are made: no file part,
      then an empty name, then a name that does not end in `.csv` in any letter case. */
  function CheckUploadRequest(file: Option<FileUpload>): (r: Result<FileUpload, UploadError>)
    ensures r == Failure(NoFileProvided) <==> file.None?
    ensures r == Failure(NoFileSelected) <==> file.Some? && file.value.filename == ""
    ensures r == Failure(NotCsvFile)
        <==> file.Some? && file.value.filename != "" && !EndsWithCsv(file.value.filename)
    ensures r.Success? <==> file.Some? && EndsWithCsv(file.value.filename)
    ensures r.Success? ==> r.value == file.value
  {
    match file
    case None => Failure(NoFileProvided)
    case Some(f) =>
      if f.filename == "" then Failure(NoFileSelected)
      else if !EndsWithCsv(f.filename) then Failure(NotCsvFile)
      else Success(f)
  }

  /** The checks on what `read_csv_robust` produced, in order: pandas' empty-data error,
      any other exception, an empty frame, a frame without columns. Because pandas calls a
      frame empty when either axis is empty, the no-columns error is never the answer. */
  function CheckParsed(parsed: ParseOutcome): (r: Result<Table, UploadError>)
    ensures parsed.EmptyData? ==> r == Failure(EmptyOrInvalidCsv)
    ensures parsed.ParseFailed? ==> r == Failure(ProcessingFailed)
    ensures parsed.Parsed? && IsEmptyFrame(parsed.table) ==> r == Failure(NoDataRows)
    ensures r.Success? <==> parsed.Parsed? && |parsed.table.rows| > 0 && |parsed.table.columns| > 0
    ensures r.Success? ==> r.value == NormalizeHeaders(parsed.table)
    ensures r != Failure(NoColumns)
  {
    match parsed
    case EmptyData => Failure(EmptyOrInvalidCsv)
    case ParseFailed => Failure(ProcessingFailed)
    case Parsed(raw) =>
      var df := NormalizeHeaders(raw);
      if IsEmptyFrame(df) then Failure(NoDataRows)
      else if |df.columns| == 0 then Failure(NoColumns)
      else Success(df)
  }

  /** The request checks of the anonymise route, in order: no body, a missing or unknown
      handle, no columns, no secret key. */
  function CheckAnonymizeRequest(body: Option<AnonymizeRequest>, known: set<Handle>)
    : (r: Result<AnonymizeRequest, AnonymizeError>)
    ensures r == Failure(NoDataProvided) <==> body.None?
    ensures r == Failure(InvalidFileId)
        <==> body.Some? && (body.value.fileId == "" || body.value.fileId !in known)
    ensures r == Failure(NoColumnsSelected)
        <==> body.Some? && body.value.fileId != "" && body.value.fileId in known && body.value.columns == []
    ensures r == Failure(NoSecretKey)
        <==> body.Some? && body.value.fileId != "" && body.value.fileId in known && body.value.columns != []
             && body.value.secretKey == ""
    ensures r.Success? ==> r == Success(body.value)
  {
    match body
    case None => Failure(NoDataProvided)
    case Some(req) =>
      if req.fileId == "" || req.fileId !in known then Failure(InvalidFileId)
      else if req.columns == [] then Failure(NoColumnsSelected)
      else if req.secretKey == "" then Failure(NoSecretKey)
      else Success(req)
  }

  /** What the anonymise route computes for a stored record: the file is read again with
      the encoding and delimiter recorded at upload (and without `skipinitialspace`), its
      header is normalised, and the requested columns are rewritten. None when the read or
      the rewrite raises. */
  function Reanonymized(rec: Record, req: AnonymizeRequest, read: Reader, hmac: Hmac): (r: Option<Table>)
    ensures r.Some? <==> (read(rec.filepath, rec.encoding, rec.delimiter, false).Parsed?
      && ColumnsAnonymized(NormalizeHeaders(read(rec.filepath, rec.encoding, rec.delimiter, false).table),
           req.columns, req.secretKey, hmac).Success?)
    ensures r.Some? ==> var raw := read(rec.filepath, rec.encoding, rec.delimiter, false).table;
      |r.value.rows| == |raw.rows| && |r.value.columns| == |raw.columns|
      && forall j | 0 <= j < |raw.columns| :: r.value.columns[j] == NormalizeHeader(raw.columns[j])
  {
    match read(rec.filepath, rec.encoding, rec.delimiter, false)
    case Parsed(raw) =>
      var rewritten := ColumnsAnonymized(NormalizeHeaders(raw), req.columns, req.secretKey, hmac);
      if rewritten.Success? then Some(rewritten.value) else None
    case _ => None
  }

  /** The process-wide upload registry. */
  class Registry {
    /** `app.config['UPLOAD_FOLDER']`. */
    const uploadFolder: string
    /** `file_storage`. */
    var storage: map<Handle, Record>

    /** `os.path.join(UPLOAD_FOLDER, f"{file_id}_{name}")`. */
    function StoredPath(handle: Handle, name: string): (r: string)
      ensures |name| <= |r| && r[|r| - |name|..] == name
      ensures handle != "" && handle[0] != '/' ==>
        uploadFolder <= r && |uploadFolder| + |handle| + 1 + |name| <= |r|
    {
      PathJoin(uploadFolder, handle + "_" + name)
    }

    /** The anonymised artefact of an upload: its path and its download name. */
    function OutputFor(handle: Handle, originalFilename: string): (o: Output)
      ensures o.filename == AnonymizedFilename(originalFilename)
      ensures |o.filename| <= |o.filepath| && o.filepath[|o.filepath| - |o.filename|..] == o.filename
      ensures handle != "" && handle[0] != '/' ==> uploadFolder <= o.filepath
    {
      var name := AnonymizedFilename(originalFilename);
      Output(StoredPath(handle, name), name)
    }

    /** What every stored record satisfies: its file lives at the path derived from its
        handle and name, it has at least one normalised column, and its anonymised output,
        once present, is the one derived from the same handle and name. */
    predicate Fits(handle: Handle, rec: Record) {
      && rec.filepath == StoredPath(handle, rec.originalFilename)
      && |rec.columns| > 0
      && (forall k | 0 <= k < |rec.columns| :: Trimmed(rec.columns[k]))
      && (rec.output.Some? ==> rec.output.value == OutputFor(handle, rec.originalFilename))
    }

    ghost predicate Valid()
      reads this
    {
      forall h | h in storage :: Fits(h, storage[h])
    }

    constructor (folder: string)
      ensures uploadFolder == folder && storage == map[] && Valid()
    {
      uploadFolder := folder;
      storage := map[];
    }

    /** The upload route. `handle` stands for the fresh `uuid4`, `detected` and `sniffed`
        for what the encoding detector and the delimiter sniffer report, `sanitize` for
        `secure_filename` and `read` for `pd.read_csv`. A rejected upload leaves the
        registry as it was; an accepted one adds exactly one record. */
    method Upload(
      file: Option<FileUpload>, handle: Handle, detected: Option<string>, sniffed: Option<char>,
      sanitize: string -> string, read: Reader)
      returns (r: Result<UploadSummary, UploadError>)
      requires Valid()
      requires handle != "" && handle !in storage
      modifies this
      ensures Valid()
      ensures r.Failure? ==> storage == old(storage)
      ensures CheckUploadRequest(file).Failure? ==> r == Failure(CheckUploadRequest(file).error)
      ensures CheckUploadRequest(file).Success? && file.value.size == 0 ==> r == Failure(EmptyFile)
      ensures CheckUploadRequest(file).Success? && file.value.size > 0 ==>
        var name := sanitize(file.value.filename);
        var encoding := ChooseEncoding(detected);
        var delimiter := ChooseDelimiter(sniffed);
        var checked := CheckParsed(read(StoredPath(handle, name), encoding, delimiter, true));
        if checked.Failure? then r == Failure(checked.error)
        else
          && r == Success(UploadSummary(handle, checked.value.columns, |checked.value.rows|, encoding,
                                        DelimiterLabel(delimiter)))
          && storage == old(storage)[handle := Record(StoredPath(handle, name), name, checked.value.columns,
                                                      encoding, delimiter, None)]
    {
      var checked := CheckUploadRequest(file);
      if checked.Failure? {
        return Failure(checked.error);
      }
      var upload := checked.value;
      var filename := sanitize(upload.filename);
      var filepath := StoredPath(handle, filename);
      if upload.size == 0 {
        return Failure(EmptyFile);
      }
      var encoding := ChooseEncoding(detected);
      var delimiter := ChooseDelimiter(sniffed);
      var content := CheckParsed(read(filepath, encoding, delimiter, true));
      if content.Failure? {
        return Failure(content.error);
      }
      var df := content.value;
      var rec := Record(filepath, filename, df.columns, encoding, delimiter, None);
      assert Fits(handle, rec);
      storage := storage[handle := rec];
      r := Success(UploadSummary(handle, df.columns, |df.rows|, encoding, DelimiterLabel(delimiter)));
    }

    /** The anonymise route. A rejected request leaves the registry as it was; a successful
        one only sets the output of the requested record, and the table it writes is the
        re-read file with the requested columns rewritten. */
    method Anonymize(body: Option<AnonymizeRequest>, read: Reader, hmac: Hmac)
      returns (r: Result<AnonymizeReply, AnonymizeError>)
      requires Valid()
      modifies this
      ensures Valid()
      ensures r.Failure? ==> storage == old(storage)
      ensures CheckAnonymizeRequest(body, old(storage).Keys).Failure? ==>
        r == Failure(CheckAnonymizeRequest(body, old(storage).Keys).error)
      ensures CheckAnonymizeRequest(body, old(storage).Keys).Success? ==>
        var req := body.value;
        var rec := old(storage)[req.fileId];
        var written := Reanonymized(rec, req, read, hmac);
        if written.None? then r == Failure(AnonymizationFailed)
        else
          && r == Success(AnonymizeReply(req.columns, written.value))
          && storage == old(storage)[req.fileId := rec.(output := Some(OutputFor(req.fileId, rec.originalFilename)))]
    {
      var checked := CheckAnonymizeRequest(body, storage.Keys);
      if checked.Failure? {
        return Failure(checked.error);
      }
      var req := checked.value;
      var info := storage[req.fileId];
      var parsed := read(info.filepath, info.encoding, info.delimiter, false);
      if !parsed.Parsed? {
        return Failure(AnonymizationFailed);
      }
      var df := NormalizeHeaders(parsed.table);
      var rewritten := AnonymizeSelected(df, req.columns, req.secretKey, hmac);
      if rewritten.Failure? {
        return Failure(AnonymizationFailed);
      }
      var output := OutputFor(req.fileId, info.originalFilename);
      storage := storage[req.fileId := info.(output := Some(output))];
      r := Success(AnonymizeReply(req.columns, rewritten.value));
    }

    /** The download route: it succeeds only for a known, anonymised handle, and then
        offers the anonymised file under the name derived from the uploaded one. */
    method Download(handle: Handle) returns (r: Result<Output, DownloadError>)
      requires Valid()
      ensures handle !in storage ==> r == Failure(UnknownFileId)
      ensures handle in storage && storage[handle].output.None? ==> r == Failure(NotYetAnonymized)
      ensures r.Success? <==> handle in storage && storage[handle].output.Some?
      ensures r.Success? ==>
        && r.value == storage[handle].output.value
        && r.value.filename == AnonymizedFilename(storage[handle].originalFilename)
    {
      if handle !in storage {
        return Failure(UnknownFileId);
      }
      var info := storage[handle];
      if info.output.None? {
        return Failure(NotYetAnonymized);
      }
      r := Success(info.output.value);
    }

    /** The cleanup route: forgets the handle if it is known and always reports success. */
    method Cleanup(handle: Handle) returns (success: bool)
      requires Valid()
      modifies this
      ensures Valid() && success
      ensures storage == old(storage) - {handle}
    {
      if handle in storage {
        storage := storage - {handle};
      }
      success := true;
    }
  }

  /** The flow of the download and cleanup tests: upload `mydata.csv`, anonymise its `name`
      column, download it as `mydata-anonymized.csv`, clean up, and find the handle gone. */
  method DownloadScenario(hmac: Hmac)
  {
    var registry := new Registry("uploads");
    var raw: Table := Frame(["name"], [[Some("John Doe")], [Some("Jane Smith")]]);
    var read: Reader := (path, encoding, delimiter, skip) => Parsed(raw);
    assert EndsWithCsv("mydata.csv");
    var up := registry.Upload(Some(FileUpload("mydata.csv", 30)), "f1", None, Some(','), name => name, read);
    assert up.Success? && up.value.rowCount == 2 && up.value.encoding == "utf-8" && up.value.delimiter == "comma";

    var down := registry.Download("f1");
    assert down == Failure(NotYetAnonymized);

    var df := NormalizeHeaders(raw);
    assert ColumnsAnonymized(df, ["name"], "test_key", hmac).Success? by {
      ColumnsAnonymizedFails(df, ["name"], "test_key", hmac);
      assert CountOf(df.columns, "name") <= 1;
    }
    var req := AnonymizeRequest("f1", ["name"], "test_key");
    assert CheckAnonymizeRequest(Some(req), registry.storage.Keys) == Success(req);
    ghost var rec := registry.storage["f1"];
    assert read(rec.filepath, rec.encoding, rec.delimiter, false) == Parsed(raw);
    assert Reanonymized(rec, req, read, hmac).Some?;
    var anon := registry.Anonymize(Some(req), read, hmac);
    assert anon.Success? && anon.value.anonymizedColumns == ["name"];

    down := registry.Download("f1");
    AnonymizedFilenameOfMydata();
    assert down.Success? && down.value.filename == "mydata-anonymized.csv";

    var done := registry.Cleanup("f1");
    down := registry.Download("f1");
    assert done && down == Failure(UnknownFileId);
  }
}
