/**
 * Text extraction from a PDF given as a data URI: the payload after the first
 * comma is decoded and loaded, then each page's text items are joined with
 * single spaces and every page is followed by a line break.
 *
 * Base64 decoding and PDF loading are the parameter `load` (None when the bytes
 * are not a readable PDF); a loaded document is its pages in order, each page
 * its text items, an item without a `str` being None.
 */
module PdfParser {
  import opened Wrappers
  import opened Errors
  import Strings

  type Item = Option<string>
  type Page = seq<Item>
  type Document = seq<Page>

  /** `dataUri.split(',')[1]`: the text between the first comma and the next one, if any. */
  function Payload(dataUri: string): (r: Option<string>)
    ensures r == None <==> ',' !in dataUri
    ensures r.Some? ==> ',' !in r.value
  {
    var parts := Strings.Split(dataUri, ',');
    PayloadExists(dataUri);
    if |parts| >= 2 then Some(parts[1]) else None
  }

  lemma PayloadExists(dataUri: string)
    ensures |Strings.Split(dataUri, ',')| >= 2 <==> ',' in dataUri
  {
    if ',' in dataUri {
      var i :| 0 <= i < |dataUri| && dataUri[i] == ',';
      assert dataUri == dataUri[..i] + [','] + dataUri[i + 1..];
      Strings.SplitConcat(dataUri[..i], ',', dataUri[i + 1..]);
    } else {
      Strings.SplitNoSeparator(dataUri, ',');
    }
  }

  /** The payload of `prefix,payload` and of `prefix,payload,rest` is `payload`. */
  lemma PayloadAfterFirstComma(prefix: string, payload: string, rest: Option<string>)
    requires ',' !in prefix && ',' !in payload
    ensures rest == None ==> Payload(prefix + [','] + payload) == Some(payload)
    ensures rest.Some? ==> Payload(prefix + [','] + payload + [','] + rest.value) == Some(payload)
  {
    Strings.SplitNoSeparator(prefix, ',');
    Strings.SplitNoSeparator(payload, ',');
    if rest == None {
      Strings.SplitConcat(prefix, ',', payload);
    } else {
      Strings.SplitConcat(prefix, ',', payload + [','] + rest.value);
      Strings.SplitConcat(payload, ',', rest.value);
      assert prefix + [','] + payload + [','] + rest.value == prefix + [','] + (payload + [','] + rest.value);
    }
  }

  /** `'str' in item ? item.str : ''`. */
  function ItemText(item: Item): (r: string)
    ensures item.Some? ==> r == item.value
    ensures item.None? ==> r == ""
  {
    if item.Some? then item.value else ""
  }

  function ItemTexts(page: Page): (r: seq<string>)
    ensures |r| == |page| && forall k :: 0 <= k < |page| ==> r[k] == ItemText(page[k])
  {
    seq(|page|, k requires 0 <= k < |page| => ItemText(page[k]))
  }

  /** A page's text: its items' texts joined by single spaces. */
  function PageText(page: Page): (r: string)
    ensures page == [] ==> r == ""
    ensures |page| == 1 ==> r == ItemText(page[0])
  {
    Strings.Join(" ", ItemTexts(page))
  }

  /** The text of the first pages: each page's text followed by one line break. */
  function Text(doc: Document): (r: string)
    ensures r == "" <==> doc == []
    ensures |r| >= |doc|
  {
    if doc == [] then "" else Text(doc[..|doc| - 1]) + PageText(doc[|doc| - 1]) + "\n"
  }

  /**
   * The loop over pages 1..numPages: after the page with number i, `fullText`
   * is the text of the first i pages.
   */
  method AssembleText(doc: Document) returns (fullText: string)
    ensures fullText == Text(doc)
  {
    fullText := "";
    var i := 1;
    while i <= |doc|
      invariant 1 <= i <= |doc| + 1
      invariant fullText == Text(doc[..i - 1])
    {
      var pageText := PageText(doc[i - 1]);
      assert doc[..i][..i - 1] == doc[..i - 1];
      fullText := fullText + pageText + "\n";
      i := i + 1;
    }
    assert doc[..|doc|] == doc;
  }

  /** The text of a data URI, or why there is none. */
  function ExtractedText(dataUri: string, load: string -> Option<Document>): (r: Result<string, Error>)
    ensures ',' !in dataUri ==> r == Err(DocumentParse(MissingPayload))
    ensures Payload(dataUri).Some? && load(Payload(dataUri).value).None? ==> r == Err(DocumentParse(UnreadablePdf))
    ensures Payload(dataUri).Some? && load(Payload(dataUri).value).Some? ==>
              r == Ok(Text(load(Payload(dataUri).value).value))
    ensures r.Ok? ==> Payload(dataUri).Some? && load(Payload(dataUri).value).Some?
                      && r.value == Text(load(Payload(dataUri).value).value)
  {
    match Payload(dataUri)
    case None => Err(DocumentParse(MissingPayload))
    case Some(payload) =>
      match load(payload)
      case None => Err(DocumentParse(UnreadablePdf))
      case Some(doc) => Ok(Text(doc))
  }

  /** `extractTextFromPdf`. */
  method ExtractTextFromPdf(dataUri: string, load: string -> Option<Document>) returns (r: Result<string, Error>)
    ensures r == ExtractedText(dataUri, load)
  {
    var payload := Payload(dataUri);
    if payload == None {
      return Err(DocumentParse(MissingPayload));
    }
    var doc := load(payload.value);
    if doc == None {
      return Err(DocumentParse(UnreadablePdf));
    }
    var fullText := AssembleText(doc.value);
    r := Ok(fullText);
  }

  /** The text of consecutive page ranges is the concatenation of their texts. */
  lemma {:induction false} TextAppend(d1: Document, d2: Document)
    ensures Text(d1 + d2) == Text(d1) + Text(d2)
    decreases |d2|
  {
    if d2 != [] {
      var d2' := d2[..|d2| - 1];
      assert (d1 + d2)[..|d1 + d2| - 1] == d1 + d2';
      assert (d1 + d2)[|d1 + d2| - 1] == d2[|d2| - 1];
      TextAppend(d1, d2');
    } else {
      assert d1 + d2 == d1;
    }
  }

  lemma TextCons(doc: Document)
    requires doc != []
    ensures Text(doc) == PageText(doc[0]) + ['\n'] + Text(doc[1..])
  {
    var first := [doc[0]];
    assert Text(first) == PageText(doc[0]) + "\n" by {
      assert first[..0] == [];
      assert "" + PageText(doc[0]) == PageText(doc[0]);
    }
    assert doc == first + doc[1..];
    TextAppend(first, doc[1..]);
  }

  function PageTexts(doc: Document): (r: seq<string>)
    ensures |r| == |doc| && forall k :: 0 <= k < |doc| ==> r[k] == PageText(doc[k])
  {
    seq(|doc|, k requires 0 <= k < |doc| => PageText(doc[k]))
  }

  /**
   * Every page, the last included, is followed by exactly one line break: when
   * no item holds a line break, splitting the text at line breaks gives the page
   * texts in page order, then the empty rest after the last break. A document
   * with no pages has the text "".
   */
  lemma {:induction false} TextLines(doc: Document)
    requires forall p, k :: 0 <= p < |doc| && 0 <= k < |doc[p]| ==> '\n' !in ItemText(doc[p][k])
    ensures Strings.Split(Text(doc), '\n') == PageTexts(doc) + [""]
    decreases |doc|
  {
    if doc != [] {
      var rest := doc[1..];
      forall p, k | 0 <= p < |rest| && 0 <= k < |rest[p]| ensures '\n' !in ItemText(rest[p][k]) {
        assert rest[p] == doc[p + 1];
      }
      TextLines(rest);
      FirstPageLine(doc);
    }
  }

  /** The step of `TextLines`: the first page's text is the first line. */
  lemma FirstPageLine(doc: Document)
    requires doc != []
    requires forall k :: 0 <= k < |doc[0]| ==> '\n' !in ItemText(doc[0][k])
    requires Strings.Split(Text(doc[1..]), '\n') == PageTexts(doc[1..]) + [""]
    ensures Strings.Split(Text(doc), '\n') == PageTexts(doc) + [""]
  {
    TextCons(doc);
    PageAvoids(doc[0]);
    PageTextsCons(doc);
    ConsLine(Text(doc), PageText(doc[0]), Text(doc[1..]), PageTexts(doc), PageTexts(doc[1..]));
  }

  /** The page texts are the first page's text, then the rest's. */
  lemma PageTextsCons(doc: Document)
    requires doc != []
    ensures PageTexts(doc) == [PageText(doc[0])] + PageTexts(doc[1..])
  {
  }

  /** A line and a line break in front of a text add that line in front of its lines. */
  lemma ConsLine(text: string, first: string, restText: string, lines: seq<string>, restLines: seq<string>)
    requires '\n' !in first
    requires text == first + ['\n'] + restText && lines == [first] + restLines
    requires Strings.Split(restText, '\n') == restLines + [""]
    ensures Strings.Split(text, '\n') == lines + [""]
  {
    Strings.SplitPrefix(first, '\n', restText);
    Strings.AppendAssoc([first], restLines, [""]);
  }

  /** A page whose items hold no line break has a text without one. */
  lemma PageAvoids(page: Page)
    requires forall k :: 0 <= k < |page| ==> '\n' !in ItemText(page[k])
    ensures '\n' !in PageText(page)
  {
    Strings.JoinAvoids(" ", ItemTexts(page), '\n');
  }

  /**
   * Items without text still occupy a slot: when no item holds a space,
   * splitting a non-empty page's text at spaces gives one piece per item, in
   * order, "" for an item without `str`.
   */
  lemma PageTextSlots(page: Page)
    requires |page| >= 1
    requires forall k :: 0 <= k < |page| ==> ' ' !in ItemText(page[k])
    ensures Strings.Split(PageText(page), ' ') == ItemTexts(page)
  {
    Strings.SplitJoin(ItemTexts(page), ' ');
  }
}
