/** Storyboards in the reader's terms: when there is one, and what its cards say and show. */
module StoryboardFacts {
  import opened Prelude
  import opened Text
  import opened StoryboardModel
  import opened Storyboard

  // --------------------------------------------------------------- numbers

  predicate IsDigit(c: char) { '0' <= c <= '9' }

  /** The number a string of digits spells. */
  function ValueOf(s: string): nat {
    if s == "" then 0
    else 10 * ValueOf(s[..|s| - 1]) + if IsDigit(s[|s| - 1]) then s[|s| - 1] as int - '0' as int else 0
  }

  /** A number is spelled in decimal digits, without a leading zero. */
  lemma {:induction false} DigitsSpell(n: nat)
    ensures Digits(n) != "" && ValueOf(Digits(n)) == n
    ensures forall c | c in Digits(n) :: IsDigit(c)
    ensures n > 0 ==> Digits(n)[0] != '0'
  {
    if n >= 10 {
      DigitsSpell(n / 10);
      assert Digits(n)[..|Digits(n)| - 1] == Digits(n / 10);
    } else {
      assert Digits(n)[..0] == "";
    }
  }

  /** A step's label: its number, and its title if titles are shown and it has one. */
  lemma StepLabelSays(index: nat, title: string, showTitles: bool)
    ensures exists d: string ::
              && d != "" && (forall c | c in d :: IsDigit(c)) && ValueOf(d) == index
              && StepLabel(index, title, showTitles)
                 == "Step " + d + (if showTitles && !Blank(title) then " - " + title else "")
  {
    DigitsSpell(index);
    TrimFacts(title);
    var d := Digits(index);
    assert "Step " + d + "" == "Step " + d;
    assert "Step " + d + " - " + title == "Step " + d + (" - " + title);
  }

  // ---------------------------------------------------------------- heights

  function HeightsOf(cards: seq<Card>): nat {
    if cards == [] then 0 else cards[0].height + HeightsOf(cards[1..])
  }

  lemma {:induction false} HeightsSnoc(cards: seq<Card>)
    requires cards != []
    ensures HeightsOf(cards) == HeightsOf(cards[..|cards| - 1]) + cards[|cards| - 1].height
  {
    if |cards| > 1 {
      HeightsSnoc(cards[1..]);
      assert cards[1..][..|cards| - 2] == cards[..|cards| - 1][1..];
    }
  }

  function Gaps(n: nat, spacing: nat): nat { if n <= 1 then 0 else spacing + Gaps(n - 1, spacing) }

  lemma {:induction false} StackIs(cards: seq<Card>, opts: Options, n: nat)
    requires n <= |cards|
    ensures StackHeight(cards, opts, n) == opts.outerPadding + HeightsOf(cards[..n]) + Gaps(n, opts.cardSpacing) + opts.outerPadding
  {
    if n > 0 {
      StackIs(cards, opts, n - 1);
      HeightsSnoc(cards[..n]);
      assert cards[..n][..n - 1] == cards[..n - 1];
    }
  }

  lemma {:induction false} GapsAre(n: nat, spacing: nat)
    requires n > 0
    ensures Gaps(n, spacing) == (n - 1) * spacing
  {
    if n > 1 {
      GapsAre(n - 1, spacing);
      assert (n - 1) * spacing == (n - 2) * spacing + spacing;
    }
  }

  /** The height of the canvas the cards need: the outer paddings, the cards, and the
      spacing between them. */
  function CanvasNeeded(cards: seq<Card>, opts: Options): nat
    requires cards != []
  {
    2 * opts.outerPadding + HeightsOf(cards) + (|cards| - 1) * opts.cardSpacing
  }

  /** Its height fits a `u32`, and it has no more pixels than allowed. */
  predicate CanvasAllowed(cards: seq<Card>, opts: Options)
    requires cards != []
  {
    CanvasNeeded(cards, opts) <= 0xFFFF_FFFF && opts.maxWidth * CanvasNeeded(cards, opts) <= opts.maxCanvasPixels
  }

  lemma AllowedIff(cards: seq<Card>, opts: Options)
    requires cards != []
    ensures FitsDown(cards, opts) <==> CanvasAllowed(cards, opts)
  {
    NeededIsStack(cards, opts);
  }

  /** There is a storyboard exactly if there are steps, both paddings fit across, and
      the canvas they need is allowed; it is then that canvas. */
  lemma LayoutIff(renderer: Renderer, steps: seq<Step>, opts: Options, m: Metric)
    requires steps != [] && 2 * opts.outerPadding + 2 * opts.cardPadding <= opts.maxWidth
    ensures var r, cards := LayoutOf(renderer, steps, opts, m), Cards(renderer, steps, opts, ContentWidth(opts), m);
            && (r.Ok? <==> CanvasAllowed(cards, opts))
            && (r.Ok? ==> r.value.width == opts.maxWidth && r.value.height == CanvasNeeded(cards, opts))
            && (r.Err? ==> r.error == CanvasTooLarge)
  {
    var cards := Cards(renderer, steps, opts, ContentWidth(opts), m);
    AllowedIff(cards, opts);
    NeededIsStack(cards, opts);
  }

  lemma NoLayout(renderer: Renderer, steps: seq<Step>, opts: Options, m: Metric)
    requires steps == [] || 2 * opts.outerPadding + 2 * opts.cardPadding > opts.maxWidth
    ensures LayoutOf(renderer, steps, opts, m) == Err(if steps == [] then Empty else CanvasTooLarge)
  {
  }

  lemma NeededIsStack(cards: seq<Card>, opts: Options)
    requires cards != []
    ensures StackHeight(cards, opts, |cards|) == CanvasNeeded(cards, opts)
  {
    StackIs(cards, opts, |cards|);
    GapsAre(|cards|, opts.cardSpacing);
    assert cards[..|cards|] == cards;
  }

  // ------------------------------------------------------------------ cards

  /** A card's words: the label and the trimmed caption as they are if they fit the
      content width; no caption exactly if the step has none or a blank one. Its
      height: the paddings, the texts 8 pixels apart, the image 10 below them. */
  lemma CardSays(renderer: Renderer, step: Step, opts: Options, contentWidth: u32, m: Metric)
    ensures var card, said := CardOf(renderer, step, opts, contentWidth, m), StepLabel(step.index, step.title, opts.showTitles);
            && (m.width(said, Style(26, true)) <= contentWidth as real ==> card.heading == said)
            && (card.caption.Some? <==> step.caption.Some? && !Blank(step.caption.value))
            && (card.caption.Some? && m.width(Trim(step.caption.value), Style(20, false)) <= contentWidth as real ==>
                  card.caption.value == Trim(step.caption.value))
            && card.height == opts.cardPadding + m.height(card.heading, Style(26, true))
                 + (if card.caption.Some? then 8 + m.height(card.caption.value, Style(20, false)) else 0)
                 + 10 + ImageHeight(renderer, step.image, contentWidth) + opts.cardPadding
  {
    if step.caption.Some? {
      TrimFacts(step.caption.value);
    }
  }

  /** Where a card's contents are: the label at the padding, the caption 8 pixels
      below it, the image 10 pixels below the text. */
  lemma ContentsPlaced(renderer: Renderer, steps: seq<Step>, opts: Options, m: Metric, l: Layout, i: nat)
    requires LayoutOf(renderer, steps, opts, m) == Ok(l) && i < |steps|
    ensures i < |l.cards|
    ensures var p := l.cards[i];
            var labelEnd := p.labelY + m.height(p.card.heading, Style(26, true));
            && p.card == CardOf(renderer, steps[i], opts, ContentWidth(opts), m)
            && p.contentX == p.x + opts.cardPadding && p.labelY == p.y + opts.cardPadding
            && (p.captionY.Some? <==> p.card.caption.Some?)
            && (p.captionY.Some? ==> p.captionY.value == labelEnd + 8)
            && p.imageY == 10 + (if p.captionY.Some? then p.captionY.value + m.height(p.card.caption.value, Style(20, false))
                                 else labelEnd)
  {
    var cards := LaidOutCards(renderer, steps, opts, m, l);
    PlacedContents(cards[i], CardTop(cards, opts, i), opts, m);
  }

  lemma PlacedContents(card: Card, y: nat, opts: Options, m: Metric)
    requires 2 * opts.outerPadding <= opts.maxWidth
    ensures var p := PlacedAt(card, y, opts.maxWidth - 2 * opts.outerPadding, opts, m);
            var labelEnd := p.labelY + m.height(card.heading, Style(26, true));
            && p.card == card && p.y == y && p.contentX == p.x + opts.cardPadding && p.labelY == y + opts.cardPadding
            && (p.captionY.Some? <==> card.caption.Some?)
            && (p.captionY.Some? ==> p.captionY.value == labelEnd + 8)
            && p.imageY == 10 + (if p.captionY.Some? then p.captionY.value + m.height(card.caption.value, Style(20, false)) else labelEnd)
  {
  }

  /** A card is outlined: border all round, background inside, where no image is. */
  lemma CardOutlined(cards: seq<Placed>, spacing: nat, i: nat, row: nat, col: nat)
    requires Stacked(cards, spacing) && i < |cards| && InCard(cards[i], row, col) && !InImage(cards[i], row, col)
    requires forall j | i <= j < |cards| :: ImageInside(cards[j])
    ensures var p := cards[i];
            var inside := p.x < col < p.x + p.width - 1 && p.y < row < p.y + p.card.height - 1;
            PixelAt(cards, |cards|, row, col) == if inside then Background else Border
  {
    EveryCardShows(cards, spacing, i, |cards|, row, col);
  }

  /** An image no wider than the content is drawn as it is; and so is any image when
      there is no content width, though only one pixel is reserved for it then. */
  lemma ImageKept(image: Picture, contentWidth: u32)
    requires image.width <= contentWidth || contentWidth == 0
    ensures Downscaled(image, contentWidth) == image
    ensures ReservedHeight(image, contentWidth) == if image.width <= contentWidth then image.height else 1
  {
    if contentWidth == 0 {
      assert image.height * contentWidth == 0;
    }
  }
}
