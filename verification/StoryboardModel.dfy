/** What a storyboard's layout is: where the cards and their contents go, in
    unbounded arithmetic, and what follows from it. */
module StoryboardModel {
  import opened Prelude
  import opened Arithmetic
  import opened Text

  type u32 = n: int | 0 <= n <= 0xFFFF_FFFF

  datatype Style = Style(px: nat, bold: bool)

  const LABEL_STYLE := Style(26, true)
  const CAPTION_STYLE := Style(20, false)
  const LABEL_GAP: u32 := 10
  const CAPTION_GAP: u32 := 8
  const ELLIPSIS := "..."

  /** Text measuring: a width, and a height rounded up to whole pixels. */
  datatype Metric = Metric(width: (string, Style) -> real, height: (string, Style) -> u32)

  datatype Picture = Picture(width: u32, height: u32)

  datatype Options = Options(
    maxWidth: u32, maxCanvasPixels: nat, outerPadding: u32, cardSpacing: u32, cardPadding: u32, showTitles: bool)

  datatype Step = Step(index: nat, title: string, caption: Option<string>, image: Picture)

  datatype StoryboardError = Empty | CanvasTooLarge | Cancelled | Io

  datatype Result<+T> = Ok(value: T) | Err(error: StoryboardError)

  // ------------------------------------------------------------------ text

  function Digits(n: nat): string {
    if n < 10 then [('0' as int + n) as char] else Digits(n / 10) + [('0' as int + n % 10) as char]
  }

  function StepLabel(index: nat, title: string, showTitles: bool): string {
    if showTitles && Trim(title) != "" then "Step " + Digits(index) + " - " + title else "Step " + Digits(index)
  }

  function NonEmptyCaption(caption: string): Option<string> {
    if Trim(caption) != "" then Some(Trim(caption)) else None
  }

  /** How far the text can grow one character at a time and still fit with an ellipsis. */
  function FitLength(text: string, k: nat, maxWidth: real, style: Style, m: Metric): (n: nat)
    requires k <= |text|
    ensures k <= n <= |text|
    decreases |text| - k
  {
    if k < |text| && m.width(text[..k + 1] + ELLIPSIS, style) <= maxWidth
    then FitLength(text, k + 1, maxWidth, style, m)
    else k
  }

  function Fitted(text: string, maxWidth: real, style: Style, m: Metric): string {
    if m.width(text, style) <= maxWidth then text
    else TrimEnd(text)[..FitLength(TrimEnd(text), 0, maxWidth, style, m)] + ELLIPSIS
  }

  predicate Fits(text: string, k: nat, maxWidth: real, style: Style, m: Metric)
    requires k <= |text|
  {
    m.width(text[..k] + ELLIPSIS, style) <= maxWidth
  }

  /** Every prefix longer than `k` fits up to `n`, and the next one does not. */
  predicate Greedy(text: string, k: nat, n: nat, maxWidth: real, style: Style, m: Metric)
    requires k <= n <= |text|
  {
    && (forall j | k < j <= n :: Fits(text, j, maxWidth, style, m))
    && (n < |text| ==> !Fits(text, n + 1, maxWidth, style, m))
  }

  lemma {:induction false} FitLengthGreedy(text: string, k: nat, maxWidth: real, style: Style, m: Metric)
    requires k <= |text|
    ensures Greedy(text, k, FitLength(text, k, maxWidth, style, m), maxWidth, style, m)
    decreases |text| - k
  {
    if k < |text| && m.width(text[..k + 1] + ELLIPSIS, style) <= maxWidth {
      FitLengthGreedy(text, k + 1, maxWidth, style, m);
    }
  }

  /** Fitted text is the text itself if that fits; otherwise a prefix and an
      ellipsis, every shorter prefix fitting too and the next one not. It is too
      wide only when it is the ellipsis alone. */
  lemma FittedLongest(text: string, maxWidth: real, style: Style, m: Metric)
    ensures m.width(text, style) <= maxWidth ==> Fitted(text, maxWidth, style, m) == text
    ensures m.width(text, style) > maxWidth ==>
              exists n | 0 <= n <= |TrimEnd(text)| ::
                Greedy(TrimEnd(text), 0, n, maxWidth, style, m)
                && Fitted(text, maxWidth, style, m) == TrimEnd(text)[..n] + ELLIPSIS
    ensures m.width(Fitted(text, maxWidth, style, m), style) <= maxWidth || Fitted(text, maxWidth, style, m) == ELLIPSIS
  {
    FitLengthGreedy(TrimEnd(text), 0, maxWidth, style, m);
    var n := FitLength(TrimEnd(text), 0, maxWidth, style, m);
    if n > 0 {
      assert Fits(TrimEnd(text), n, maxWidth, style, m);
    } else {
      assert TrimEnd(text)[..0] + ELLIPSIS == ELLIPSIS;
    }
  }

  // ---------------------------------------------------------------- images

  /** The size `downscale` gives: what the one-pass renderer measures, and what both draw. */
  function Downscaled(image: Picture, maxWidth: u32): (r: Picture)
    ensures maxWidth > 0 ==> r.width <= maxWidth
    ensures r.height <= Max(image.height, 1)
  {
    if image.width == 0 || maxWidth == 0 || image.width <= maxWidth then image
    else
      ScaledBelow(image.height, maxWidth, image.width);
      Picture(maxWidth, Max(image.height * maxWidth / image.width, 1))
  }

  /** The height the two-pass renderer reserves before any image is decoded. */
  function ReservedHeight(image: Picture, contentWidth: u32): u32 {
    if image.width > contentWidth && image.width > 0 then
      ScaledBelow(image.height, contentWidth, image.width);
      Max(image.height * contentWidth / image.width, 1)
    else image.height
  }

  lemma ScaledBelow(h: nat, small: nat, big: nat)
    requires small <= big && big > 0
    ensures 0 <= h * small / big <= h
  {
    MulMono(small, big, h);
    DivBounds(h * small, big);
    DivAtMost(h * small, h, big);
  }

  lemma {:induction false} DivAtMost(n: nat, h: nat, big: nat)
    requires big > 0 && n <= h * big
    ensures n / big <= h
  {
    DivBounds(n, big);
    RatioAtMost(n / big, h, big);
  }

  lemma {:induction false} RatioAtMost(q: nat, h: nat, big: nat)
    requires big > 0 && q * big <= h * big
    ensures q <= h
  {
    if q > h {
      MulMono(h + 1, q, big);
    }
  }

  /** Nothing is scaled to no width at all, unless it is one pixel high anyway. */
  predicate HeightKept(image: Picture, contentWidth: u32) {
    contentWidth > 0 || image.width == 0 || image.height == 1
  }

  lemma HeightsAgreeIff(image: Picture, contentWidth: u32)
    ensures ReservedHeight(image, contentWidth) == Downscaled(image, contentWidth).height <==> HeightKept(image, contentWidth)
  {
    if contentWidth == 0 && image.width > 0 {
      assert image.height * contentWidth == 0;
    }
  }

  /** The scaled height keeps the proportions, rounded down, and never vanishes. */
  lemma DownscaleKeepsShape(image: Picture, maxWidth: u32)
    requires 0 < maxWidth < image.width
    ensures var r := Downscaled(image, maxWidth);
            && r.width == maxWidth
            && r.height >= 1
            && image.height * maxWidth < (r.height + 1) * image.width
            && (r.height > 1 ==> r.height * image.width <= image.height * maxWidth)
  {
    DivBounds(image.height * maxWidth, image.width);
    MulMono(image.height * maxWidth / image.width, Downscaled(image, maxWidth).height, image.width);
  }

  // ----------------------------------------------------------------- cards

  datatype Card = Card(heading: string, caption: Option<string>, image: Picture, height: nat)

  function TextHeight(heading: string, caption: Option<string>, m: Metric): nat {
    m.height(heading, LABEL_STYLE)
    + match caption case Some(c) => CAPTION_GAP + m.height(c, CAPTION_STYLE) case None => 0
  }

  function FittedCaption(caption: Option<string>, contentWidth: u32, m: Metric): Option<string> {
    if caption.Some? && NonEmptyCaption(caption.value).Some?
    then Some(Fitted(Trim(NonEmptyCaption(caption.value).value), contentWidth as real, CAPTION_STYLE, m))
    else None
  }

  /** A card showing `image` below its text and reserving `imageHeight` for it. */
  function CardWith(
    heading: string, caption: Option<string>, image: Picture, imageHeight: u32, opts: Options, m: Metric): Card
  {
    Card(heading, caption, image, 2 * opts.cardPadding + TextHeight(heading, caption, m) + LABEL_GAP + imageHeight)
  }

  function FittedHeading(step: Step, opts: Options, contentWidth: u32, m: Metric): string {
    Fitted(StepLabel(step.index, step.title, opts.showTitles), contentWidth as real, LABEL_STYLE, m)
  }

  datatype Renderer = OnePass | TwoPass

  function ImageHeight(renderer: Renderer, image: Picture, contentWidth: u32): u32 {
    match renderer
    case OnePass => Downscaled(image, contentWidth).height
    case TwoPass => ReservedHeight(image, contentWidth)
  }

  function CardOf(renderer: Renderer, step: Step, opts: Options, contentWidth: u32, m: Metric): Card {
    CardWith(FittedHeading(step, opts, contentWidth, m), FittedCaption(step.caption, contentWidth, m),
             Downscaled(step.image, contentWidth), ImageHeight(renderer, step.image, contentWidth), opts, m)
  }

  function Cards(renderer: Renderer, steps: seq<Step>, opts: Options, contentWidth: u32, m: Metric): (r: seq<Card>)
    ensures |r| == |steps| && forall i | 0 <= i < |r| :: r[i] == CardOf(renderer, steps[i], opts, contentWidth, m)
  {
    seq(|steps|, i requires 0 <= i < |steps| => CardOf(renderer, steps[i], opts, contentWidth, m))
  }

  // ---------------------------------------------------------------- layout

  /** Canvas height for the first `n` cards. */
  function StackHeight(cards: seq<Card>, opts: Options, n: nat): nat
    requires n <= |cards|
  {
    if n == 0 then 2 * opts.outerPadding
    else StackHeight(cards, opts, n - 1) + (if n > 1 then opts.cardSpacing else 0) + cards[n - 1].height
  }

  /** Top of card `i`. */
  function CardTop(cards: seq<Card>, opts: Options, i: nat): nat
    requires i < |cards|
  {
    if i == 0 then opts.outerPadding
    else CardTop(cards, opts, i - 1) + cards[i - 1].height + opts.cardSpacing
  }

  /** A card on the canvas, with where its label, caption and image are drawn. */
  datatype Placed = Placed(
    card: Card, x: nat, y: nat, width: nat, contentX: nat, labelY: nat, captionY: Option<nat>, imageY: nat)

  function PlacedAt(card: Card, y: nat, cardWidth: nat, opts: Options, m: Metric): Placed {
    var labelY := y + opts.cardPadding;
    var labelEnd := labelY + m.height(card.heading, LABEL_STYLE);
    Placed(card, opts.outerPadding, y, cardWidth, opts.outerPadding + opts.cardPadding, labelY,
           match card.caption case Some(_) => Some(labelEnd + CAPTION_GAP) case None => None,
           labelY + TextHeight(card.heading, card.caption, m) + LABEL_GAP)
  }

  datatype Layout = Layout(width: nat, height: nat, cards: seq<Placed>)

  function Arranged(cards: seq<Card>, opts: Options, m: Metric): Layout
    requires 2 * opts.outerPadding <= opts.maxWidth
  {
    Layout(opts.maxWidth, StackHeight(cards, opts, |cards|),
           seq(|cards|, i requires 0 <= i < |cards| =>
             PlacedAt(cards[i], CardTop(cards, opts, i), opts.maxWidth - 2 * opts.outerPadding, opts, m)))
  }

  /** Room for the paddings across, in unbounded arithmetic. */
  predicate FitsAcross(opts: Options) { 2 * opts.outerPadding + 2 * opts.cardPadding <= opts.maxWidth }

  function ContentWidth(opts: Options): u32
    requires FitsAcross(opts)
  {
    opts.maxWidth - 2 * opts.outerPadding - 2 * opts.cardPadding
  }

  predicate FitsDown(cards: seq<Card>, opts: Options) {
    var height := StackHeight(cards, opts, |cards|);
    height <= U32_MAX && opts.maxWidth * height <= opts.maxCanvasPixels
  }

  /** The storyboard: it exists exactly when there are steps, the paddings fit
      across and the canvas fits a `u32` and the pixel budget. */
  function LayoutOf(renderer: Renderer, steps: seq<Step>, opts: Options, m: Metric): Result<Layout> {
    if steps == [] then Err(Empty)
    else if FitsAcross(opts) && FitsDown(Cards(renderer, steps, opts, ContentWidth(opts), m), opts)
    then Ok(Arranged(Cards(renderer, steps, opts, ContentWidth(opts), m), opts, m))
    else Err(CanvasTooLarge)
  }

  lemma {:induction false} StackGrows(cards: seq<Card>, opts: Options, i: nat, n: nat)
    requires i <= n <= |cards|
    ensures StackHeight(cards, opts, i) <= StackHeight(cards, opts, n)
  {
    if i < n {
      StackGrows(cards, opts, i, n - 1);
    }
  }

  lemma {:induction false} TopIsStack(cards: seq<Card>, opts: Options, i: nat)
    requires i < |cards|
    ensures CardTop(cards, opts, i) + cards[i].height + opts.outerPadding == StackHeight(cards, opts, i + 1)
  {
    if i > 0 {
      TopIsStack(cards, opts, i - 1);
    }
  }

  lemma {:induction false} CardsApart(cards: seq<Card>, opts: Options, i: nat, j: nat)
    requires i < j < |cards|
    ensures CardTop(cards, opts, i) + cards[i].height + opts.cardSpacing <= CardTop(cards, opts, j)
  {
    if i < j - 1 {
      CardsApart(cards, opts, i, j - 1);
    }
  }

  /** Cards lie inside the canvas with `outer_padding` all round. */
  predicate InCanvas(l: Layout, opts: Options) {
    forall p | p in l.cards ::
      && p.x == opts.outerPadding
      && p.x + p.width + opts.outerPadding == l.width
      && opts.outerPadding <= p.y
      && p.y + p.card.height + opts.outerPadding <= l.height
  }

  /** Cards lie one below the other, `spacing` between neighbours. */
  predicate Stacked(cards: seq<Placed>, spacing: nat) {
    forall i, j | 0 <= i < j < |cards| ::
      var below := cards[i].y + cards[i].card.height + spacing;
      if j == i + 1 then below == cards[j].y else below <= cards[j].y
  }

  /** Cards are inside the canvas and disjoint, and fill it from padding to padding. */
  lemma CardsInCanvas(renderer: Renderer, steps: seq<Step>, opts: Options, m: Metric, l: Layout)
    requires LayoutOf(renderer, steps, opts, m) == Ok(l)
    ensures |l.cards| == |steps| > 0 && InCanvas(l, opts) && Stacked(l.cards, opts.cardSpacing)
    ensures l.cards[0].y == opts.outerPadding
    ensures l.cards[|steps| - 1].y + l.cards[|steps| - 1].card.height + opts.outerPadding == l.height
  {
    var cards := LaidOutCards(renderer, steps, opts, m, l);
    ArrangedInCanvas(cards, opts, m, l);
    ArrangedStacked(cards, opts, m, l);
    TopIsStack(cards, opts, |cards| - 1);
  }

  lemma LaidOutCards(renderer: Renderer, steps: seq<Step>, opts: Options, m: Metric, l: Layout) returns (cards: seq<Card>)
    requires LayoutOf(renderer, steps, opts, m) == Ok(l)
    ensures FitsAcross(opts) && cards == Cards(renderer, steps, opts, ContentWidth(opts), m)
    ensures |cards| == |steps| > 0 && l == Arranged(cards, opts, m)
  {
    cards := Cards(renderer, steps, opts, ContentWidth(opts), m);
  }

  lemma ArrangedInCanvas(cards: seq<Card>, opts: Options, m: Metric, l: Layout)
    requires 2 * opts.outerPadding <= opts.maxWidth && l == Arranged(cards, opts, m)
    ensures InCanvas(l, opts)
  {
    forall p | p in l.cards
      ensures opts.outerPadding <= p.y && p.y + p.card.height + opts.outerPadding <= l.height
    {
      var i :| 0 <= i < |cards| && p == l.cards[i];
      TopIsStack(cards, opts, i);
      StackGrows(cards, opts, i + 1, |cards|);
      if i > 0 {
        CardsApart(cards, opts, 0, i);
      }
    }
  }

  lemma ArrangedStacked(cards: seq<Card>, opts: Options, m: Metric, l: Layout)
    requires 2 * opts.outerPadding <= opts.maxWidth && l == Arranged(cards, opts, m)
    ensures Stacked(l.cards, opts.cardSpacing)
  {
    forall i, j | 0 <= i < j < |cards|
      ensures var below := l.cards[i].y + l.cards[i].card.height + opts.cardSpacing;
              if j == i + 1 then below == l.cards[j].y else below <= l.cards[j].y
    {
      CardsApart(cards, opts, i, j);
    }
  }

  /** An image ends exactly `card_padding` above its card's bottom, and inside the
      card's content width, unless there is no content width. */
  lemma ImagesInCards(renderer: Renderer, steps: seq<Step>, opts: Options, m: Metric, l: Layout, i: nat)
    requires LayoutOf(renderer, steps, opts, m) == Ok(l) && i < |steps|
    ensures var p, cw := l.cards[i], ContentWidth(opts);
            && p.card.image == Downscaled(steps[i].image, cw)
            && (p.imageY + p.card.image.height + opts.cardPadding == p.y + p.card.height
                <==> renderer.OnePass? || HeightKept(steps[i].image, cw))
            && (cw > 0 ==> p.contentX + p.card.image.width + opts.cardPadding <= p.x + p.width)
            && p.labelY + m.height(p.card.heading, LABEL_STYLE) <= p.imageY
            && (p.captionY.Some? ==>
                  && p.labelY + m.height(p.card.heading, LABEL_STYLE) <= p.captionY.value
                  && p.captionY.value + m.height(p.card.caption.value, CAPTION_STYLE) <= p.imageY)
  {
    HeightsAgreeIff(steps[i].image, ContentWidth(opts));
  }

  /** The two renderers give the same storyboard, or the same refusal, whenever
      they reserve the same heights: always when there is content width. */
  lemma RenderersAgree(steps: seq<Step>, opts: Options, m: Metric)
    requires FitsAcross(opts) ==> forall s | s in steps :: HeightKept(s.image, ContentWidth(opts))
    ensures LayoutOf(OnePass, steps, opts, m) == LayoutOf(TwoPass, steps, opts, m)
  {
    if FitsAcross(opts) {
      CardsAgreeIff(steps, opts, ContentWidth(opts), m);
    }
  }

  /** And only then do they give the same storyboard. */
  lemma RenderersAgreeOnly(steps: seq<Step>, opts: Options, m: Metric, l: Layout)
    requires LayoutOf(OnePass, steps, opts, m) == Ok(l) && LayoutOf(TwoPass, steps, opts, m) == Ok(l)
    ensures FitsAcross(opts) && forall s | s in steps :: HeightKept(s.image, ContentWidth(opts))
  {
    var one := LaidOutCards(OnePass, steps, opts, m, l);
    var two := LaidOutCards(TwoPass, steps, opts, m, l);
    CardsAgreeIff(steps, opts, ContentWidth(opts), m);
    if one != two {
      var i :| 0 <= i < |steps| && one[i] != two[i];
      ArrangedTellsCards(one, two, opts, m, i);
    }
  }

  lemma CardsAgreeIff(steps: seq<Step>, opts: Options, cw: u32, m: Metric)
    ensures Cards(OnePass, steps, opts, cw, m) == Cards(TwoPass, steps, opts, cw, m)
       <==> forall s | s in steps :: HeightKept(s.image, cw)
  {
    var one, two := Cards(OnePass, steps, opts, cw, m), Cards(TwoPass, steps, opts, cw, m);
    forall i | 0 <= i < |steps|
      ensures one[i] == two[i] <==> HeightKept(steps[i].image, cw)
    {
      HeightsAgreeIff(steps[i].image, cw);
    }
    if forall s | s in steps :: HeightKept(s.image, cw) {
      assert one == two;
    } else {
      var i :| 0 <= i < |steps| && !HeightKept(steps[i].image, cw);
      assert one[i] != two[i];
    }
  }

  lemma ArrangedTellsCards(a: seq<Card>, b: seq<Card>, opts: Options, m: Metric, i: nat)
    requires 2 * opts.outerPadding <= opts.maxWidth && i < |a| == |b| && a[i] != b[i]
    ensures Arranged(a, opts, m) != Arranged(b, opts, m)
  {
    assert Arranged(a, opts, m).cards[i].card == a[i];
    assert Arranged(b, opts, m).cards[i].card == b[i];
  }
}
