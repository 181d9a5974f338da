/** `DataBinder`: the rough ZPL check and the replacement of data fields in an
    XML label template. The template is taken after parsing: its `Items` as a
    list of elements, each an element name with its attributes. */
module DataBinder {

  import opened Wrappers
  import opened Text
  import opened Results
  import Localization
  import Utility

  // ---------------------------------------------------------------------------
  // ZPL validation

  datatype Validation = Validation(isValid: bool, errorMessage: string)

  const StartFormat: string := "^XA"
  const EndFormat: string := "^XZ"

  /** `ValidateZplInput`. */
  function ValidateZplInput(zpl: Option<string>): (r: Validation)
    ensures IsNullOrEmpty(zpl) ==> r == Validation(false, Localization.CannotBindToEmptyZPLTemplate)
    // a template is refused only when it ends like ZPL without starting like it
    ensures r.isValid <==> !IsNullOrEmpty(zpl) && (StartsWith(zpl.value, StartFormat) || !EndsWith(zpl.value, EndFormat))
    ensures !IsNullOrEmpty(zpl) && !r.isValid ==> r.errorMessage == Localization.InvalidZPL
    ensures r.isValid ==> r.errorMessage == ""
  {
    if IsNullOrEmpty(zpl) then Validation(false, Localization.CannotBindToEmptyZPLTemplate)
    else if !StartsWith(zpl.value, StartFormat) && EndsWith(zpl.value, EndFormat) then
      Validation(false, Localization.InvalidZPL)
    else Validation(true, "")
  }

  /** The check is rough: text that is not ZPL at all passes as long as it
      does not end with `^XZ`. */
  lemma TextWithoutEndFormatPasses()
    ensures ValidateZplInput(Some("hello")).isValid
    ensures !ValidateZplInput(Some("hello^XZ")).isValid
  {
    assert !StartsWith("hello^XZ", StartFormat) by { assert "hello^XZ"[..3][0] == 'h'; }
    assert EndsWith("hello^XZ", EndFormat) by { assert "hello^XZ"[5..] == EndFormat; }
    assert !EndsWith("hello", EndFormat) by { assert "hello"[2..][0] == 'l'; }
  }

  // ---------------------------------------------------------------------------
  // Data-field replacement

  /** One element under `Items`: its name and its attributes. */
  datatype Item = Item(kind: string, attributes: map<string, string>)

  const DataField: string := "DataField"
  const TextAttribute: string := "Text"
  const CodeAttribute: string := "Code"
  const ImageAttribute: string := "SourceBase64"

  const XmlDeclaration: string := "<?xml version=\"1.0\" encoding=\"utf-8\"?>"

  /** `List.IndexOf`: the first position of `v`, or -1. */
  function FirstIndex(source: seq<string>, v: string): (i: int)
    ensures -1 <= i < |source|
    ensures i == -1 <==> v !in source
    ensures 0 <= i ==> source[i] == v && forall j :: 0 <= j < i ==> source[j] != v
  {
    if |source| == 0 then -1
    else if source[0] == v then 0
    else
      var i := FirstIndex(source[1..], v);
      if i < 0 then -1 else i + 1
  }

  /** The attribute a matched item of this kind receives its value in, if any. */
  function TargetAttribute(kind: string): Option<string> {
    if kind == "TextItem" then Some(TextAttribute)
    else if kind == "BarcodeItem" then Some(CodeAttribute)
    else if kind == "ImageItem" then Some(ImageAttribute)
    else None
  }

  /** The work of the loop on one item. `data[index]` is read before the
      attribute is set, so a short `data` list raises first; a text or
      barcode item without its attribute raises on the null reference; an
      image item without `SourceBase64` gets one added. */
  function BindItem(item: Item, source: seq<string>, data: seq<string>): (r: Outcome<Item>)
    // items with no data field, or one the source does not name, are skipped
    ensures (DataField !in item.attributes || item.attributes[DataField] !in source) ==> r == Returned(item)
    ensures r.Returned? ==> r.value.kind == item.kind
    // a matched item takes the value at the first position of its field and its data field is emptied
    ensures DataField in item.attributes && item.attributes[DataField] in source ==>
              var i := FirstIndex(source, item.attributes[DataField]);
              var target := TargetAttribute(item.kind);
              && (target.Some? && i >= |data| ==> r == Raised(ArgumentOutOfRange))
              && (target.Some? && i < |data| && item.kind != "ImageItem" && target.value !in item.attributes ==>
                    r == Raised(NullReference))
              && (r.Returned? <==>
                    !(target.Some? && (i >= |data| || (item.kind != "ImageItem" && target.value !in item.attributes))))
              && (r.Returned? ==>
                    && r.value.attributes.Keys == item.attributes.Keys + (if target.Some? then {target.value} else {})
                    && r.value.attributes[DataField] == ""
                    && (target.Some? ==> r.value.attributes[target.value] == data[i])
                    && forall a :: a in item.attributes && a != DataField && Some(a) != target ==>
                         r.value.attributes[a] == item.attributes[a])
  {
    if DataField !in item.attributes then Returned(item)
    else
      var i := FirstIndex(source, item.attributes[DataField]);
      if i < 0 then Returned(item)
      else
        match TargetAttribute(item.kind)
        case None => Returned(item.(attributes := item.attributes[DataField := ""]))
        case Some(target) =>
          if i >= |data| then Raised(ArgumentOutOfRange)
          else if item.kind != "ImageItem" && target !in item.attributes then Raised(NullReference)
          else Returned(item.(attributes := item.attributes[target := data[i]][DataField := ""]))
  }

  /** The loop over all items; the first exception ends it. */
  function BindItems(items: seq<Item>, source: seq<string>, data: seq<string>): (r: Outcome<seq<Item>>)
    ensures r.Returned? <==> forall k :: 0 <= k < |items| ==> BindItem(items[k], source, data).Returned?
    ensures r.Returned? ==>
              && |r.value| == |items|
              && forall k :: 0 <= k < |items| ==> r.value[k] == BindItem(items[k], source, data).value
    ensures r.Raised? ==> exists k :: 0 <= k < |items| && BindItem(items[k], source, data) == Raised(r.exception)
                                     && forall j :: 0 <= j < k ==> BindItem(items[j], source, data).Returned?
  {
    if |items| == 0 then Returned([])
    else
      match BindItem(items[0], source, data)
      case Raised(e) => Raised(e)
      case Returned(first) =>
        match BindItems(items[1..], source, data)
        case Raised(e) =>
          ghost var k :| 0 <= k < |items[1..]| && BindItem(items[1..][k], source, data) == Raised(e)
                         && forall j :: 0 <= j < k ==> BindItem(items[1..][j], source, data).Returned?;
          assert BindItem(items[k + 1], source, data) == Raised(e);
          Raised(e)
        case Returned(rest) => Returned([first] + rest)
  }

  /** `ReplaceDataFieldsByValuesInXml`. The template is cleaned of U+FEFF and
      then parsed; parsing and printing the XML are the parameters `parse`
      (which yields the `Items` elements or the parser's exception) and
      `render`. */
  function ReplaceDataFieldsByValuesInXml(xml: string, source: seq<string>, data: seq<string>,
                                          parse: string -> Outcome<seq<Item>>, render: seq<Item> -> string)
    : (r: Outcome<string>)
    ensures var parsed := parse(Utility.RemoveZeroWidthNoBreakCharacter(xml));
            && (parsed.Raised? ==> r == Raised(parsed.exception))
            && (parsed.Returned? ==> (r.Returned? <==> BindItems(parsed.value, source, data).Returned?))
            && (r.Returned? ==>
                  && parsed.Returned?
                  && r.value == XmlDeclaration + render(BindItems(parsed.value, source, data).value))
    // the output always opens with the UTF-8 XML declaration
    ensures r.Returned? ==> StartsWith(r.value, XmlDeclaration)
  {
    match parse(Utility.RemoveZeroWidthNoBreakCharacter(xml))
    case Raised(e) => Raised(e)
    case Returned(items) =>
      match BindItems(items, source, data)
      case Raised(e) => Raised(e)
      case Returned(bound) => Returned(XmlDeclaration + render(bound))
  }

  /** Binding twice changes nothing more: the first pass empties every
      matched data field, and an empty field matches only an empty source
      name. */
  lemma {:induction false} BindItemsIdempotent(items: seq<Item>, source: seq<string>, data: seq<string>)
    requires "" !in source
    requires BindItems(items, source, data).Returned?
    ensures BindItems(BindItems(items, source, data).value, source, data) == BindItems(items, source, data)
  {
    var bound := BindItems(items, source, data).value;
    forall k | 0 <= k < |bound|
      ensures BindItem(bound[k], source, data) == Returned(bound[k])
    {
      assert BindItem(items[k], source, data).Returned?;
    }
    BindItemsUnchanged(bound, source, data);
  }

  lemma {:induction false} BindItemsUnchanged(items: seq<Item>, source: seq<string>, data: seq<string>)
    requires forall k :: 0 <= k < |items| ==> BindItem(items[k], source, data) == Returned(items[k])
    ensures BindItems(items, source, data) == Returned(items)
    decreases |items|
  {
    if |items| > 0 {
      BindItemsUnchanged(items[1..], source, data);
      assert items == [items[0]] + items[1..];
    }
  }

  /** A text item whose field is the second source name takes the second value. */
  lemma TextItemBound()
    ensures var item := Item("TextItem", map[DataField := "price", TextAttribute := "?"]);
            BindItem(item, ["name", "price"], ["Tea", "1.20"])
            == Returned(Item("TextItem", map[DataField := "", TextAttribute := "1.20"]))
  {
    assert FirstIndex(["name", "price"], "price") == 1;
    assert map[DataField := "price", TextAttribute := "?"][TextAttribute := "1.20"][DataField := ""]
           == map[DataField := "", TextAttribute := "1.20"];
  }
}
