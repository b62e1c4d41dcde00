/** The rich-text toolbar's block-format dropdown.

    Choosing an option turns into one editor request: make the selected
    blocks paragraphs, headings or quotes, or insert a list. The editor
    library carries out the request; here a request is an abstract `Action`.
    After every editor update the toolbar recomputes the block type it
    shows from the selection's top-level element, and the option whose
    value equals that block type is shown active. */
module Toolbar {
  import opened Wrappers

  datatype HeadingTag = H1 | H2 | H3 | H4 | H5 | H6

  datatype ListKind = Bullet | Number | Check

  function TagName(t: HeadingTag): string {
    match t
    case H1 => "h1"
    case H2 => "h2"
    case H3 => "h3"
    case H4 => "h4"
    case H5 => "h5"
    case H6 => "h6"
  }

  /** The list type name the editor reports for a list of this kind. */
  function ListTypeName(k: ListKind): string {
    match k
    case Bullet => "bullet"
    case Number => "number"
    case Check => "check"
  }

  /** The entries of the block-format dropdown. */
  datatype BlockOption = ParagraphOption | HeadingOption(tag: HeadingTag) | ListOption(kind: ListKind) | QuoteOption

  /** The string value of an option, which is also its key in the option table. */
  function OptionValue(o: BlockOption): string {
    match o
    case ParagraphOption => "paragraph"
    case HeadingOption(t) => TagName(t)
    case ListOption(k) => ListTypeName(k)
    case QuoteOption => "quote"
  }

  /** The options in the order the dropdown lists them. */
  const AllOptions: seq<BlockOption> := [
    ParagraphOption,
    HeadingOption(H1), HeadingOption(H2), HeadingOption(H3),
    HeadingOption(H4), HeadingOption(H5), HeadingOption(H6),
    ListOption(Number), ListOption(Bullet), ListOption(Check),
    QuoteOption
  ]

  lemma AllOptionsListed(o: BlockOption)
    ensures o in AllOptions
  {
    match o
    case HeadingOption(t) =>
      match t {
        case H1 => assert AllOptions[1] == o;
        case H2 => assert AllOptions[2] == o;
        case H3 => assert AllOptions[3] == o;
        case H4 => assert AllOptions[4] == o;
        case H5 => assert AllOptions[5] == o;
        case H6 => assert AllOptions[6] == o;
      }
    case ListOption(k) =>
      match k {
        case Number => assert AllOptions[7] == o;
        case Bullet => assert AllOptions[8] == o;
        case Check => assert AllOptions[9] == o;
      }
    case ParagraphOption => assert AllOptions[0] == o;
    case QuoteOption => assert AllOptions[10] == o;
  }

  /** The option with a given value, if there is one. */
  function ParseOption(value: string): (r: Option<BlockOption>)
    ensures r.Some? ==> OptionValue(r.value) == value
    ensures r.None? ==> forall o: BlockOption :: OptionValue(o) != value
  {
    if value == "paragraph" then Some(ParagraphOption)
    else if value == "h1" then Some(HeadingOption(H1))
    else if value == "h2" then Some(HeadingOption(H2))
    else if value == "h3" then Some(HeadingOption(H3))
    else if value == "h4" then Some(HeadingOption(H4))
    else if value == "h5" then Some(HeadingOption(H5))
    else if value == "h6" then Some(HeadingOption(H6))
    else if value == "quote" then Some(QuoteOption)
    else if value == "bullet" then Some(ListOption(Bullet))
    else if value == "number" then Some(ListOption(Number))
    else if value == "check" then Some(ListOption(Check))
    else None
  }

  /** Distinct options have distinct values, so a value names one option. */
  lemma ParseOptionRoundTrip(o: BlockOption)
    ensures ParseOption(OptionValue(o)) == Some(o)
  {
  }

  // ---------------------------------------------------------------------
  // Choosing an option
  // ---------------------------------------------------------------------

  /** The editor selection when an option is chosen: none, a range (text)
      selection, or some other kind (a node selection). */
  datatype Selection = NoSelection | RangeSelection | OtherSelection

  /** The request the toolbar makes of the editor. */
  datatype Action = SetParagraph | SetHeading(tag: HeadingTag) | InsertList(kind: ListKind) | SetQuote | NoOp

  /** Paragraph: only a range selection has its blocks replaced. */
  function FormatParagraph(sel: Selection): (a: Action)
    ensures a == SetParagraph <==> sel == RangeSelection
    ensures a == SetParagraph || a == NoOp
  {
    if sel == RangeSelection then SetParagraph else NoOp
  }

  /** Heading: only a range selection has its blocks replaced. */
  function FormatHeading(tag: HeadingTag, sel: Selection): (a: Action)
    ensures a == SetHeading(tag) <==> sel == RangeSelection
    ensures a == SetHeading(tag) || a == NoOp
  {
    if sel == RangeSelection then SetHeading(tag) else NoOp
  }

  /** A list option inserts its list unless the block type already is that
      list, in which case it reverts to a paragraph. */
  function FormatList(kind: ListKind, blockType: string, sel: Selection): (a: Action)
    ensures blockType != ListTypeName(kind) ==> a == InsertList(kind)
    ensures blockType == ListTypeName(kind) ==> a == FormatParagraph(sel)
  {
    if blockType != ListTypeName(kind) then InsertList(kind) else FormatParagraph(sel)
  }

  /** Quote: set unless the block type already is a quote; it never
      reverts. The selection kind is not checked. */
  function FormatQuote(blockType: string): (a: Action)
    ensures a == SetQuote <==> blockType != "quote"
    ensures a == SetQuote || a == NoOp
  {
    if blockType != "quote" then SetQuote else NoOp
  }

  /** The dropdown's `format`: dispatch on the chosen value. A value that
      is no option's value matches no case and does nothing. */
  function Format(value: string, blockType: string, sel: Selection): (a: Action)
    ensures ParseOption(value).None? ==> a == NoOp
    ensures a.SetParagraph? ==>
      sel == RangeSelection && (value == "paragraph" || (blockType == value && ParseOption(value).value.ListOption?))
    ensures a.SetHeading? ==> sel == RangeSelection && value == TagName(a.tag)
    ensures a.InsertList? ==> value == ListTypeName(a.kind) && blockType != value
    ensures a.SetQuote? ==> value == "quote" && blockType != "quote"
    ensures a == NoOp <==>
      || ParseOption(value).None?
      || (sel != RangeSelection && !ParseOption(value).value.QuoteOption?
          && !(ParseOption(value).value.ListOption? && blockType != value))
      || (value == "quote" && blockType == "quote")
  {
    match ParseOption(value)
    case None => NoOp
    case Some(ParagraphOption) => FormatParagraph(sel)
    case Some(HeadingOption(t)) => FormatHeading(t, sel)
    case Some(QuoteOption) => FormatQuote(blockType)
    case Some(ListOption(k)) => FormatList(k, blockType, sel)
  }

  // ---------------------------------------------------------------------
  // The reported block type and the active option
  // ---------------------------------------------------------------------

  /** The top-level element of the selection's anchor: a heading with its
      tag, a list with its kind, or another element with its node type
      ("paragraph", "quote", "code", "root", ...). */
  datatype TopLevelElement = HeadingNode(tag: HeadingTag) | ListNode(kind: ListKind) | OtherElement(nodeType: string)

  /** The block type shown for an element: a heading's tag, a list's type,
      otherwise the node type. */
  function BlockTypeOf(e: TopLevelElement): string {
    match e
    case HeadingNode(t) => TagName(t)
    case ListNode(k) => ListTypeName(k)
    case OtherElement(nodeType) => nodeType
  }

  /** The element each option stands for. */
  function ElementOf(o: BlockOption): TopLevelElement {
    match o
    case ParagraphOption => OtherElement("paragraph")
    case HeadingOption(t) => HeadingNode(t)
    case ListOption(k) => ListNode(k)
    case QuoteOption => OtherElement("quote")
  }

  /** The block type reported for an option's element is that option's
      value, so the option reads back from it. */
  lemma BlockTypeOfOptionElement(o: BlockOption)
    ensures BlockTypeOf(ElementOf(o)) == OptionValue(o)
    ensures ParseOption(BlockTypeOf(ElementOf(o))) == Some(o)
  {
    ParseOptionRoundTrip(o);
  }

  /** The toolbar's update after an editor change: only a range selection
      recomputes the block type; otherwise the old one stays. */
  function UpdateBlockType(blockType: string, sel: Selection, element: TopLevelElement): (b: string)
    ensures sel != RangeSelection ==> b == blockType
    ensures sel == RangeSelection && element.HeadingNode? ==> b == TagName(element.tag)
    ensures sel == RangeSelection && element.ListNode? ==> b == ListTypeName(element.kind)
    ensures sel == RangeSelection && element.OtherElement? ==> b == element.nodeType
  {
    if sel == RangeSelection then BlockTypeOf(element) else blockType
  }

  predicate IsActive(o: BlockOption, blockType: string) {
    OptionValue(o) == blockType
  }

  /** At most one option is active for any block type. */
  lemma AtMostOneActive(o1: BlockOption, o2: BlockOption, blockType: string)
    requires IsActive(o1, blockType) && IsActive(o2, blockType)
    ensures o1 == o2
  {
    ParseOptionRoundTrip(o1);
    ParseOptionRoundTrip(o2);
  }

  /** An option is active exactly when the block type names it. */
  lemma ActiveIffNamed(o: BlockOption, blockType: string)
    ensures IsActive(o, blockType) <==> ParseOption(blockType) == Some(o)
  {
    ParseOptionRoundTrip(o);
  }

  // ---------------------------------------------------------------------
  // Choosing twice
  // ---------------------------------------------------------------------

  /** The editor's effect on the selected top-level element, as this model
      assumes it: a block change replaces the element by one of the chosen
      kind; `NoOp` leaves it. */
  function ElementAfter(a: Action, e: TopLevelElement): TopLevelElement {
    match a
    case SetParagraph => OtherElement("paragraph")
    case SetHeading(t) => HeadingNode(t)
    case InsertList(k) => ListNode(k)
    case SetQuote => OtherElement("quote")
    case NoOp => e
  }

  /** One choice from the dropdown under a range selection: the action,
      then the toolbar's recomputed block type. */
  function Choose(o: BlockOption, e: TopLevelElement): TopLevelElement {
    ElementAfter(Format(OptionValue(o), BlockTypeOf(e), RangeSelection), e)
  }

  /** After choosing an option under a range selection, the shown block
      type is that option's value, except that choosing the list the block
      already is reverts it to a paragraph. */
  lemma ChoiceIsShown(o: BlockOption, e: TopLevelElement)
    ensures var b := BlockTypeOf(Choose(o, e));
      if o.ListOption? && BlockTypeOf(e) == OptionValue(o) then b == "paragraph" else b == OptionValue(o)
  {
    ParseOptionRoundTrip(o);
  }

  /** After any choice under a range selection exactly one listed option is
      shown active. */
  lemma ExactlyOneActiveAfterChoice(o: BlockOption, e: TopLevelElement)
    ensures var b := BlockTypeOf(Choose(o, e));
      exists a :: a in AllOptions && IsActive(a, b) && forall a' :: a' in AllOptions && IsActive(a', b) ==> a' == a
  {
    ChoiceIsShown(o, e);
    var b := BlockTypeOf(Choose(o, e));
    var a := if o.ListOption? && BlockTypeOf(e) == OptionValue(o) then ParagraphOption else o;
    AllOptionsListed(a);
    assert IsActive(a, b);
    forall a' | a' in AllOptions && IsActive(a', b)
      ensures a' == a
    {
      AtMostOneActive(a', a, b);
    }
  }

  /** A list option toggles: two choices in a row end at a paragraph when
      the block was not that list, and at that list when it was. Either
      way the second choice undoes the first's block type. */
  lemma ListOptionToggles(k: ListKind, e: TopLevelElement)
    ensures var once := Choose(ListOption(k), e);
      var twice := Choose(ListOption(k), once);
      && (BlockTypeOf(e) != ListTypeName(k) ==>
            BlockTypeOf(once) == ListTypeName(k) && BlockTypeOf(twice) == "paragraph")
      && (BlockTypeOf(e) == ListTypeName(k) ==>
            BlockTypeOf(once) == "paragraph" && BlockTypeOf(twice) == ListTypeName(k))
  {
    var once := Choose(ListOption(k), e);
    ChoiceIsShown(ListOption(k), e);
    ChoiceIsShown(ListOption(k), once);
  }

  /** Quote does not toggle: choosing it twice leaves a quote. */
  lemma QuoteIsSticky(e: TopLevelElement)
    ensures BlockTypeOf(Choose(QuoteOption, Choose(QuoteOption, e))) == "quote"
  {
    ChoiceIsShown(QuoteOption, e);
    ChoiceIsShown(QuoteOption, Choose(QuoteOption, e));
  }

  // ---------------------------------------------------------------------
  // The dropdown's label
  // ---------------------------------------------------------------------

  /** The label lookup as written: the option table is indexed by the block
      type. `None` is the `undefined` entry, on which destructuring the
      label's `label` and `icon` throws. */
  function LabelAsWritten(blockType: string): (r: Option<BlockOption>)
    ensures r.Some? <==> ParseOption(blockType).Some?
    ensures r.Some? ==> IsActive(r.value, blockType)
  {
    ParseOption(blockType)
  }

  /** A code block, which the registered code node and the markdown
      shortcuts produce, is reported as block type "code"; no option has
      that key, so the label lookup fails. */
  lemma CodeBlockHasNoLabel(blockType: string)
    ensures var b := UpdateBlockType(blockType, RangeSelection, OtherElement("code"));
      b == "code" && LabelAsWritten(b).None?
  {
  }

  /** The label with a fallback: the active option when there is one,
      otherwise the paragraph entry. */
  function DropdownLabel(blockType: string): (o: BlockOption)
    ensures ParseOption(blockType).Some? ==> IsActive(o, blockType)
    ensures ParseOption(blockType).None? ==> o == ParagraphOption
  {
    match ParseOption(blockType)
    case Some(o) => o
    case None => ParagraphOption
  }

  /** Every element the editor can report gets a label that is one of the
      listed options, and where an option is active the label shows it. */
  lemma LabelShowsActiveOption(e: TopLevelElement, o: BlockOption)
    ensures DropdownLabel(BlockTypeOf(e)) in AllOptions
    ensures IsActive(o, BlockTypeOf(e)) ==> DropdownLabel(BlockTypeOf(e)) == o
  {
    AllOptionsListed(DropdownLabel(BlockTypeOf(e)));
    ActiveIffNamed(o, BlockTypeOf(e));
  }
}
