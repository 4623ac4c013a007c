/** The cell anonymisation rule: blank cells stay as they are, every other cell becomes
    the first 16 characters of the lowercase hex HMAC-SHA256 digest of its text. */
module Cells {
  import opened Base
  import opened Text

  /** A cell of a table read with every column as text: None is pandas' missing value (NaN). */
  type Cell = Option<string>

  predicate IsLowerHex(c: char) {
    '0' <= c <= '9' || 'a' <= c <= 'f'
  }

  predicate IsHexString(s: string) {
    forall i | 0 <= i < |s| :: IsLowerHex(s[i])
  }

  /** `n` zero digits, the simplest hex string of a given length. */
  function Zeros(n: nat): (s: string)
    ensures |s| == n && IsHexString(s)
  {
    seq(n, _ => '0')
  }

  /** What `hexdigest()` of an HMAC-SHA256 returns: 64 lowercase hex characters. */
  type Digest = d: string | |d| == 64 && IsHexString(d) witness Zeros(64)

  /** HMAC-SHA256 keyed by the first argument over the second, left uninterpreted:
      the model only knows that it is a function and that it yields a hex digest. */
  type Hmac = (string, string) -> Digest

  /** Number of digest characters kept in a pseudonym. */
  const PseudonymLength: nat := 16

  /** `str(value).strip() == ''`, which also covers `value == ''`. */
  predicate IsBlank(s: string): (b: bool)
    ensures b <==> AllSpace(s)
  {
    Strip(s) == ""
  }

  /** The pass-through test of `anonymize_value`: missing, empty or whitespace only. */
  predicate IsBlankCell(c: Cell): (b: bool)
    ensures b <==> c.None? || AllSpace(c.value)
  {
    c.None? || IsBlank(c.value)
  }

  /** A non-empty hex string is never blank: hex digits are not whitespace. */
  lemma HexIsNotBlank(p: string)
    requires |p| > 0 && IsHexString(p)
    ensures !IsBlank(p)
  {
    assert IsLowerHex(p[0]);
  }

  /** `anonymize_value(value, secret_key)`. Blank cells come back unchanged; any other
      cell becomes the 16-character prefix of the keyed digest of (key, text), so the
      result is a function of the key and the text alone, and blankness is preserved
      both ways. */
  function AnonymizeValue(value: Cell, key: string, hmac: Hmac): (r: Cell)
    ensures IsBlankCell(value) ==> r == value
    ensures !IsBlankCell(value) ==>
      r.Some? && |r.value| == PseudonymLength && IsHexString(r.value) && r.value <= hmac(key, value.value)
    ensures IsBlankCell(r) <==> IsBlankCell(value)
  {
    if IsBlankCell(value) then
      value
    else
      var p := hmac(key, value.value)[..PseudonymLength];
      HexIsNotBlank(p);
      Some(p)
  }

  /** A cell anonymised `n` times over, as happens when a column is requested `n` times. */
  function AnonymizeRepeated(value: Cell, n: nat, key: string, hmac: Hmac): Cell
    decreases n
  {
    if n == 0 then value else AnonymizeRepeated(AnonymizeValue(value, key, hmac), n - 1, key, hmac)
  }

  /** Repeating the rule never touches a blank cell. */
  lemma {:induction false} AnonymizeRepeatedBlank(value: Cell, n: nat, key: string, hmac: Hmac)
    requires IsBlankCell(value)
    ensures AnonymizeRepeated(value, n, key, hmac) == value
    decreases n
  {
    if n > 0 {
      assert AnonymizeValue(value, key, hmac) == value;
      AnonymizeRepeatedBlank(value, n - 1, key, hmac);
    }
  }

  /** A non-blank cell requested at least once ends up a 16-character hex pseudonym,
      however many times the rule is applied. */
  lemma {:induction false} AnonymizeRepeatedPseudonym(value: Cell, n: nat, key: string, hmac: Hmac)
    requires !IsBlankCell(value) && n > 0
    ensures AnonymizeRepeated(value, n, key, hmac).Some?
    ensures |AnonymizeRepeated(value, n, key, hmac).value| == PseudonymLength
    ensures IsHexString(AnonymizeRepeated(value, n, key, hmac).value)
    decreases n
  {
    var once := AnonymizeValue(value, key, hmac);
    assert AnonymizeRepeated(value, n, key, hmac) == AnonymizeRepeated(once, n - 1, key, hmac);
    if n > 1 {
      AnonymizeRepeatedPseudonym(once, n - 1, key, hmac);
    }
  }
}
