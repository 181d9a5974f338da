/** `NeodynamicWrapper`: the bookkeeping the library does around the label
    SDK — collecting the fonts a template uses, dropping items whose binding
    the data source cannot serve, and counting the bytes of a command. The
    SDK calls themselves are parameters. */
module NeodynamicWrapper {

  import opened Wrappers
  import opened Text
  import opened Results
  import opened Fonts
  import Io

  // ---------------------------------------------------------------------------
  // Template fonts

  /** An item of a label template. Text items carry their font and the name
      the printer stores that font under. */
  datatype LabelItem =
    | TextLabel(font: FontInfo, storageName: Option<string>, dataField: Option<string>)
    | OtherLabel(dataField: Option<string>)

  /** `NameAtPrinterStorage` of a text item's font. */
  function StorageName(f: FontInfo): (r: string)
    ensures |r| <= 12
    ensures EndsWith(r, ".FNT") && r[..|r| - 4] == ShortName(f)
  {
    var r := ShortName(f) + ".FNT";
    assert r[|r| - 4..] == ".FNT";
    r
  }

  /** The fonts of the text items, one per item, in item order. */
  function UsedFonts(items: seq<LabelItem>): (fonts: seq<FontInfo>)
    ensures forall f :: f in fonts <==> exists k :: 0 <= k < |items| && items[k].TextLabel? && items[k].font == f
    ensures |fonts| <= |items|
  {
    if |items| == 0 then []
    else
      var rest := UsedFonts(items[1..]);
      assert forall k :: 1 <= k < |items| ==> items[k] == items[1..][k - 1];
      if items[0].TextLabel? then [items[0].font] + rest else rest
  }

  /** Every text item gets its font's storage name; other items are kept. */
  function NameFontsAtStorage(items: seq<LabelItem>): (r: seq<LabelItem>)
    ensures |r| == |items|
    ensures forall k :: 0 <= k < |items| ==>
              if items[k].TextLabel? then r[k] == items[k].(storageName := Some(StorageName(items[k].font)))
              else r[k] == items[k]
  {
    seq(|items|, k requires 0 <= k < |items| =>
      if items[k].TextLabel? then items[k].(storageName := Some(StorageName(items[k].font))) else items[k])
  }

  /** The reference for the de-duplication: a font is kept where it first
      occurs, and the kept fonts stay in input order. Two fonts are the same
      when name, bold and italic agree, which is all a `FontInfo` holds. */
  function FirstOccurrences(fonts: seq<FontInfo>): (r: seq<FontInfo>)
    ensures forall f :: f in r <==> f in fonts
    ensures forall i, j :: 0 <= i < j < |r| ==> Key(r[i]) != Key(r[j])
    decreases |fonts|
  {
    if |fonts| == 0 then []
    else
      var init := fonts[..|fonts| - 1];
      var last := fonts[|fonts| - 1];
      assert fonts == init + [last];
      FirstOccurrences(init) + (if last in init then [] else [last])
  }

  /** The loop of `SetupTemplateFonts` that builds `distinctFonts`. */
  method DistinctFonts(fonts: seq<FontInfo>) returns (distinct: seq<FontInfo>)
    ensures distinct == FirstOccurrences(fonts)
  {
    distinct := [];
    var i := 0;
    while i < |fonts|
      invariant 0 <= i <= |fonts|
      invariant distinct == FirstOccurrences(fonts[..i])
      invariant forall f :: f in distinct <==> f in fonts[..i]
    {
      var font := fonts[i];
      if !Any(distinct, font) {
        distinct := distinct + [font];
      }
      assert fonts[..i + 1][..i] == fonts[..i];
      i := i + 1;
    }
    assert fonts[..i] == fonts;
  }

  /** `distinctFonts.Any(x => x.Name == font.Name && x.Bold == font.Bold && x.Italic == font.Italic)`. */
  function Any(fonts: seq<FontInfo>, font: FontInfo): (b: bool)
    ensures b <==> font in fonts
  {
    exists k :: 0 <= k < |fonts| && Key(fonts[k]) == Key(font)
  }

  /** `SetupTemplateFonts` without the XML: the items with their storage
      names set, and the distinct fonts they use. */
  method SetupTemplateFonts(items: seq<LabelItem>) returns (named: seq<LabelItem>, distinct: seq<FontInfo>)
    ensures named == NameFontsAtStorage(items)
    ensures distinct == FirstOccurrences(UsedFonts(items))
  {
    named := NameFontsAtStorage(items);
    distinct := DistinctFonts(UsedFonts(items));
  }

  /** A template whose two text items share a font yields that font once. */
  lemma SharedFontListedOnce(f: FontInfo, g: FontInfo)
    requires f != g
    ensures FirstOccurrences([f, g, f]) == [f, g]
  {
    assert [f][..0] == [];
    assert FirstOccurrences([f]) == [f];
    assert [f, g][..1] == [f];
    assert FirstOccurrences([f, g]) == [f, g];
    assert [f, g, f][..2] == [f, g];
  }

  // ---------------------------------------------------------------------------
  // Bindings

  /** The data source handed to the SDK: a table with columns, or anything else. */
  datatype DataSource = DataTableSource(columns: seq<string>) | OtherSource

  /** Whether an item survives: no binding, or a binding some column serves
      (compared case-insensitively). */
  predicate Served(item: LabelItem, columns: seq<string>) {
    IsNullOrEmpty(item.dataField) || ToLower(item.dataField.value) in LowerAll(columns)
  }

  function LowerAll(columns: seq<string>): (r: seq<string>)
    ensures |r| == |columns| && forall i :: 0 <= i < |columns| ==> r[i] == ToLower(columns[i])
  {
    seq(|columns|, i requires 0 <= i < |columns| => ToLower(columns[i]))
  }

  /** The items that survive, in their order. */
  function KeepServed(items: seq<LabelItem>, columns: seq<string>): (r: seq<LabelItem>)
    ensures |r| <= |items|
    ensures forall x :: x in r <==> x in items && Served(x, columns)
    decreases |items|
  {
    if |items| == 0 then []
    else (if Served(items[0], columns) then [items[0]] else []) + KeepServed(items[1..], columns)
  }

  /** `RemoveEmptyBindings`. */
  function RemoveEmptyBindings(items: seq<LabelItem>, dataSource: DataSource): (r: seq<LabelItem>)
    ensures dataSource.OtherSource? ==> r == items
    ensures dataSource.DataTableSource? ==> forall x :: x in r <==> x in items && Served(x, dataSource.columns)
  {
    match dataSource
    case OtherSource => items
    case DataTableSource(columns) => KeepServed(items, columns)
  }

  /** Filtering a template in two parts is filtering it whole: the kept
      items keep their order. */
  lemma {:induction false} KeepServedAppend(a: seq<LabelItem>, b: seq<LabelItem>, columns: seq<string>)
    ensures KeepServed(a + b, columns) == KeepServed(a, columns) + KeepServed(b, columns)
    decreases |a|
  {
    if |a| > 0 {
      assert (a + b)[1..] == a[1..] + b;
      KeepServedAppend(a[1..], b, columns);
    } else {
      assert a + b == b;
    }
  }

  /** A template all of whose bindings are served is left whole. */
  lemma {:induction false} AllServedKept(items: seq<LabelItem>, columns: seq<string>)
    requires forall k :: 0 <= k < |items| ==> Served(items[k], columns)
    ensures KeepServed(items, columns) == items
    decreases |items|
  {
    if |items| > 0 {
      AllServedKept(items[1..], columns);
      assert items == [items[0]] + items[1..];
    }
  }

  /** A binding is matched whatever the case of the column name. */
  lemma BindingMatchIgnoresCase(field: string, column: string)
    requires ToLower(field) == ToLower(column)
    ensures Served(OtherLabel(Some(field)), [column])
  {
    assert LowerAll([column])[0] == ToLower(column);
  }

  // ---------------------------------------------------------------------------
  // Raw commands

  /** The message of the `ArgumentNullException` that `Encoding.GetBytes(string s)`
      raises for null: the framework resource `ArgumentNull_String`, represented
      by its key as the library's own texts are. */
  const NullDataMessage: string := "ArgumentNull_String"

  /** `ExecuteCommand`. The byte count is set before the SDK call, which the
      parameter `sdk` stands for; both sit inside the `try`, so null data
      fails there before the SDK is reached. */
  function ExecuteCommand(data: Option<string>, sdk: Io.Status): (r: PrintResult)
    ensures data.None? ==> r == PrintResult(false, NullDataMessage, 0)
    ensures data.Some? ==> r.bytesSent == Utf8Length(data.value)
    ensures r.successful <==> data.Some? && sdk.Ok?
    ensures data.Some? ==> r.message == (if sdk.Ok? then "" else sdk.message)
  {
    match data
    case None => Initial.(message := NullDataMessage)
    case Some(d) =>
      var counted := Initial.(bytesSent := Utf8Length(d));
      match sdk
      case Ok => counted.(successful := true)
      case Throws(m) => counted.(message := m)
  }

  /** A failed call still reports the bytes it meant to send; for ASCII data
      that is one byte per character. */
  lemma FailedCallReportsBytes(data: string, message: string)
    requires IsAscii(data)
    ensures ExecuteCommand(Some(data), Io.Throws(message)).bytesSent == |data|
    ensures !ExecuteCommand(Some(data), Io.Throws(message)).successful
  {
    Utf8LengthOfAscii(data);
  }
}
