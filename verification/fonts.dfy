/** `FontInfo`: a font's name and styles, and the short name under which a
    Zebra printer stores it (printer font names are limited to 8 characters). */
module Fonts {

  datatype FontInfo = FontInfo(name: string, bold: bool, italic: bool)

  /** `GenerateShortName`, behind both `ShortName` and `ToString`. */
  function ShortName(f: FontInfo): (r: string)
    // at most six characters of the name, then the style letters
    ensures |r| <= 8
    // a short plain name is kept as it is
    ensures |f.name| < 7 && !f.bold && !f.italic ==> r == f.name
    // otherwise the name is cut to six characters and "B", then "I", follow
    ensures !(|f.name| < 7 && !f.bold && !f.italic) ==>
              var kept := if |f.name| <= 6 then |f.name| else 6;
              && |r| == kept + (if f.bold then 1 else 0) + (if f.italic then 1 else 0)
              && r[..kept] == f.name[..kept]
              && (f.bold ==> r[kept] == 'B')
              && (f.italic ==> r[|r| - 1] == 'I')
  {
    if |f.name| < 7 && !f.bold && !f.italic then f.name
    else
      var base := if |f.name| <= 6 then f.name else f.name[..6];
      base + (if f.bold then "B" else "") + (if f.italic then "I" else "")
  }

  /** `ToString` is hidden by a method that answers the short name. */
  function ToString(f: FontInfo): (r: string)
    ensures r == ShortName(f)
  {
    ShortName(f)
  }

  /** What identifies a font when fonts are compared. */
  function Key(f: FontInfo): (string, bool, bool) {
    (f.name, f.bold, f.italic)
  }

  /** A plain name of seven or more characters keeps its first six. */
  lemma LongPlainNameTruncated(name: string)
    requires |name| >= 7
    ensures ShortName(FontInfo(name, false, false)) == name[..6]
  {
  }

  /** A plain short name, taken as a font name again, shortens to itself. */
  lemma ShortNameStable(f: FontInfo)
    requires !f.bold && !f.italic
    ensures ShortName(FontInfo(ShortName(f), false, false)) == ShortName(f)
  {
  }

  /** The style letters come in the order bold, italic. */
  lemma BoldItalicSuffix(name: string)
    ensures ShortName(FontInfo(name, true, true)) == (if |name| <= 6 then name else name[..6]) + "BI"
  {
  }

  /** Distinct fonts can share a short name: two long names with the same
      first six characters are stored under one printer name. */
  lemma ShortNamesCollide()
    ensures ShortName(FontInfo("Arial Black", false, false)) == ShortName(FontInfo("Arial Narrow", false, false))
  {
    assert "Arial Black"[..6] == "Arial ";
    assert "Arial Narrow"[..6] == "Arial ";
  }
}
