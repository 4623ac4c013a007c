/** The small string rules of the routes: the `.csv` test, the anonymised file name,
    the delimiter label reported after upload, and `os.path.join` for storage paths. */
module Naming {
  /** `str.lower()` on one character, for the ASCII letters. */
  function LowerAscii(c: char): (r: char)
    ensures 'A' <= c <= 'Z' ==> r as int == c as int + 32 && 'a' <= r <= 'z'
    ensures !('A' <= c <= 'Z') ==> r == c
  {
    if 'A' <= c <= 'Z' then (c as int + ('a' as int - 'A' as int)) as char else c
  }

  /** `ext.lower() == '.csv'` for a four-character extension. */
  predicate IsCsvExtension(ext: string): (b: bool)
    ensures b <==> (|ext| == 4 && ext[0] == '.' && ext[1] in {'c', 'C'} && ext[2] in {'s', 'S'}
      && ext[3] in {'v', 'V'})
  {
    |ext| == 4 && ext[0] == '.' && LowerAscii(ext[1]) == 'c' && LowerAscii(ext[2]) == 's'
    && LowerAscii(ext[3]) == 'v'
  }

  /** `name.lower().endswith('.csv')`. */
  predicate EndsWithCsv(name: string): (b: bool)
    ensures b <==> (|name| >= 4 && name[|name| - 4] == '.' && name[|name| - 3] in {'c', 'C'}
      && name[|name| - 2] in {'s', 'S'} && name[|name| - 1] in {'v', 'V'})
  {
    |name| >= 4 && IsCsvExtension(name[|name| - 4..])
  }

  const AnonymizedSuffix: string := "-anonymized.csv"

  /** The download name: one trailing `.csv` (in any case) is dropped and
      `-anonymized.csv` appended. The result always ends in the suffix, and what comes
      before it is the original name, shortened by exactly that extension when present. */
  function AnonymizedFilename(name: string): (r: string)
    ensures |r| >= |AnonymizedSuffix| && r[|r| - |AnonymizedSuffix|..] == AnonymizedSuffix
    ensures var base := r[..|r| - |AnonymizedSuffix|];
      base <= name && (if EndsWithCsv(name) then |base| == |name| - 4 else base == name)
  {
    var base := if EndsWithCsv(name) then name[..|name| - 4] else name;
    base + AnonymizedSuffix
  }

  /** Whatever the base, a `.csv` extension in any letter case is swapped for the suffix. */
  lemma AnonymizedFilenameOfCsv(base: string, ext: string)
    requires IsCsvExtension(ext)
    ensures AnonymizedFilename(base + ext) == base + AnonymizedSuffix
  {
    var name := base + ext;
    assert name[|name| - 4..] == ext;
    assert name[..|name| - 4] == base;
  }

  /** A name without the extension keeps all of its characters. */
  lemma AnonymizedFilenameOfOther(name: string)
    requires !EndsWithCsv(name)
    ensures AnonymizedFilename(name) == name + AnonymizedSuffix
  {
  }

  /** The download name the tests expect for `mydata.csv`. */
  lemma AnonymizedFilenameOfMydata()
    ensures AnonymizedFilename("mydata.csv") == "mydata-anonymized.csv"
  {
    assert "mydata.csv" == "mydata" + ".csv";
    AnonymizedFilenameOfCsv("mydata", ".csv");
  }

  /** Only one extension is removed. */
  lemma AnonymizedFilenameOfDoubleExtension()
    ensures AnonymizedFilename("a.csv.CSV") == "a.csv-anonymized.csv"
  {
    assert "a.csv.CSV" == "a.csv" + ".CSV";
    AnonymizedFilenameOfCsv("a.csv", ".CSV");
  }

  /** The label reported for the detected delimiter: four named separators, and any other
      character reported as itself. */
  function DelimiterLabel(d: char): (r: string)
    ensures d == ',' ==> r == "comma"
    ensures d == ';' ==> r == "semicolon"
    ensures d == '\t' ==> r == "tab"
    ensures d == '|' ==> r == "pipe"
    ensures d !in {',', ';', '\t', '|'} ==> r == [d]
  {
    if d == ',' then "comma"
    else if d == ';' then "semicolon"
    else if d == '\t' then "tab"
    else if d == '|' then "pipe"
    else [d]
  }

  /** Distinct delimiters get distinct labels, so the label identifies the delimiter. */
  lemma DelimiterLabelInjective(a: char, b: char)
    requires DelimiterLabel(a) == DelimiterLabel(b)
    ensures a == b
  {
    if a !in {',', ';', '\t', '|'} && b !in {',', ';', '\t', '|'} {
      assert DelimiterLabel(a)[0] == a && DelimiterLabel(b)[0] == b;
    }
  }

  /** POSIX `os.path.join(folder, leaf)`: an absolute leaf replaces the folder, otherwise
      a separator is inserted unless the folder is empty or already ends with one. */
  function PathJoin(folder: string, leaf: string): (r: string)
    ensures |leaf| > 0 && leaf[0] == '/' ==> r == leaf
    ensures |leaf| <= |r| && r[|r| - |leaf|..] == leaf
    ensures !(|leaf| > 0 && leaf[0] == '/') ==>
      folder <= r && r[|folder|..] in {leaf, "/" + leaf}
      && (r[|folder|..] == "/" + leaf <==> folder != [] && folder[|folder| - 1] != '/')
  {
    if |leaf| > 0 && leaf[0] == '/' then leaf
    else if folder == [] || folder[|folder| - 1] == '/' then folder + leaf
    else
      assert (folder + "/" + leaf)[|folder|..] == "/" + leaf;
      folder + "/" + leaf
  }
}
