/** String rules the application borrows from Python: `str.isspace`, `str.strip`,
    stripping a given character, and the column-header normalisation built from them. */
module Text {
  /** U+FEFF, the byte-order mark a UTF-8 file may begin with. */
  const BOM: char := '\U{FEFF}'

  /** The characters Python's `str.isspace` accepts, which `str.strip()` removes. */
  predicate IsSpace(c: char) {
    ('\t' <= c <= '\r') || ('\U{1C}' <= c <= '\U{1F}') || c == ' '
    || c == '\U{85}' || c == '\U{A0}' || c == '\U{1680}'
    || ('\U{2000}' <= c <= '\U{200A}') || c == '\U{2028}' || c == '\U{2029}'
    || c == '\U{202F}' || c == '\U{205F}' || c == '\U{3000}'
  }

  predicate AllSpace(s: string) {
    forall i | 0 <= i < |s| :: IsSpace(s[i])
  }

  predicate AllBom(s: string) {
    forall i | 0 <= i < |s| :: s[i] == BOM
  }

  /** Neither the first nor the last character is whitespace. */
  predicate Trimmed(s: string) {
    s == [] || (!IsSpace(s[0]) && !IsSpace(s[|s| - 1]))
  }

  /** Left-stripping U+FEFF: drops every leading byte-order mark. */
  function LStripBom(s: string): (r: string)
    ensures |r| <= |s| && r == s[|s| - |r|..]
    ensures AllBom(s[..|s| - |r|])
    ensures r == [] || r[0] != BOM
  {
    if s != [] && s[0] == BOM then LStripBom(s[1..]) else s
  }

  /** `s.lstrip()`: drops leading whitespace. */
  function LStrip(s: string): (r: string)
    ensures |r| <= |s| && r == s[|s| - |r|..]
    ensures AllSpace(s[..|s| - |r|])
    ensures r == [] || !IsSpace(r[0])
  {
    if s != [] && IsSpace(s[0]) then LStrip(s[1..]) else s
  }

  /** `s.rstrip()`: drops trailing whitespace. */
  function RStrip(s: string): (r: string)
    ensures |r| <= |s| && r == s[..|r|]
    ensures AllSpace(s[|r|..])
    ensures r == [] || !IsSpace(r[|r| - 1])
  {
    if s != [] && IsSpace(s[|s| - 1]) then
      var r := RStrip(s[..|s| - 1]);
      assert s[|r|..] == s[..|s| - 1][|r|..] + [s[|s| - 1]];
      r
    else
      s
  }

  /** `s.strip()`: the result is trimmed, and it is empty exactly when `s` is all whitespace. */
  function Strip(s: string): (r: string)
    ensures |r| <= |s|
    ensures Trimmed(r)
    ensures r == [] <==> AllSpace(s)
  {
    var l := LStrip(s);
    var r := RStrip(l);
    assert r != [] ==> !IsSpace(l[0]);
    assert l != [] ==> s[|s| - |l|] == l[0];
    assert l == [] ==> s[..|s| - |l|] == s;
    r
  }

  /** The header normalisation: leading byte-order marks go first, then surrounding
      whitespace. */
  function NormalizeHeader(s: string): (r: string)
    ensures |r| <= |s|
    ensures Trimmed(r)
  {
    Strip(LStripBom(s))
  }

  lemma {:induction false} LStripBomAfterBoms(boms: string, x: string)
    requires AllBom(boms)
    requires x == [] || x[0] != BOM
    ensures LStripBom(boms + x) == x
    decreases |boms|
  {
    if boms == [] {
      assert boms + x == x;
    } else {
      assert (boms + x)[1..] == boms[1..] + x;
      LStripBomAfterBoms(boms[1..], x);
    }
  }

  lemma {:induction false} LStripAfterSpace(w: string, x: string)
    requires AllSpace(w)
    requires x == [] || !IsSpace(x[0])
    ensures LStrip(w + x) == x
    decreases |w|
  {
    if w == [] {
      assert w + x == x;
    } else {
      assert (w + x)[1..] == w[1..] + x;
      LStripAfterSpace(w[1..], x);
    }
  }

  lemma {:induction false} RStripBeforeSpace(x: string, w: string)
    requires AllSpace(w)
    requires x == [] || !IsSpace(x[|x| - 1])
    ensures RStrip(x + w) == x
    decreases |w|
  {
    if w == [] {
      assert x + w == x;
    } else {
      var w' := w[..|w| - 1];
      assert (x + w)[..|x + w| - 1] == x + w';
      RStripBeforeSpace(x, w');
    }
  }

  /** Whitespace padding around a trimmed string is exactly what `strip` removes. */
  lemma {:induction false} StripOfPadded(lead: string, name: string, trail: string)
    requires AllSpace(lead) && AllSpace(trail) && Trimmed(name)
    ensures Strip(lead + name + trail) == name
  {
    if name == [] {
      var pad := lead + trail;
      assert lead + name + trail == pad + [];
      assert AllSpace(pad) by {
        forall i | 0 <= i < |pad| ensures IsSpace(pad[i]) {
          if i >= |lead| { assert pad[i] == trail[i - |lead|]; }
        }
      }
      LStripAfterSpace(pad, []);
    } else {
      assert lead + name + trail == lead + (name + trail);
      assert (name + trail)[0] == name[0];
      LStripAfterSpace(lead, name + trail);
      RStripBeforeSpace(name, trail);
    }
  }

  /** A header made of leading byte-order marks, whitespace padding and a trimmed name
      normalises to exactly that name. The name may itself begin with a byte-order mark
      only when whitespace separates it from the leading marks. */
  lemma {:induction false} NormalizeHeaderOfPadded(boms: string, lead: string, name: string, trail: string)
    requires AllBom(boms) && AllSpace(lead) && AllSpace(trail) && Trimmed(name)
    requires lead == [] ==> name == [] || name[0] != BOM
    ensures NormalizeHeader(boms + lead + name + trail) == name
  {
    var rest := lead + name + trail;
    assert boms + lead + name + trail == boms + rest;
    assert rest == [] || rest[0] != BOM by {
      if lead != [] {
        assert rest[0] == lead[0] && IsSpace(lead[0]);
      } else if name != [] {
        assert rest[0] == name[0];
      } else if trail != [] {
        assert rest == trail && IsSpace(trail[0]);
      }
    }
    LStripBomAfterBoms(boms, rest);
    StripOfPadded(lead, name, trail);
  }

  /** Normalisation leaves an already clean name alone. */
  lemma NormalizeHeaderOfClean(name: string)
    requires Trimmed(name) && (name == [] || name[0] != BOM)
    ensures NormalizeHeader(name) == name
  {
    assert name == [] + [] + name + [];
    NormalizeHeaderOfPadded([], [], name, []);
  }

  /** The UTF-8 byte-order mark in front of the first header is removed. */
  lemma NormalizeHeaderDropsBom()
    ensures NormalizeHeader("\U{FEFF}name") == "name"
  {
    var name := "name";
    assert "\U{FEFF}name" == [BOM] + [] + name + [];
    NormalizeHeaderOfPadded([BOM], [], name, []);
  }

  /** Marks and padding around the name both go, as in a header written `\ufeff name `. */
  lemma NormalizeHeaderDropsBomAndPadding()
    ensures NormalizeHeader("\U{FEFF} name ") == "name"
  {
    var name := "name";
    var sp := " ";
    assert AllSpace(sp);
    assert "\U{FEFF} name " == [BOM] + sp + name + sp;
    NormalizeHeaderOfPadded([BOM], sp, name, sp);
  }
}
