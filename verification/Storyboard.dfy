/** The two storyboard renderers, in `u32` arithmetic: every unchecked addition
    and every pixel write below is shown to stay in range. */
module Storyboard {
  import opened Prelude
  import opened Text
  import opened StoryboardModel

  // ----------------------------------------------------- checked arithmetic

  function CheckedAdd(a: u32, b: u32): Option<u32> { if a + b <= U32_MAX then Some(a + b) else None }

  function CheckedSub(a: u32, b: u32): Option<u32> { if a >= b then Some(a - b) else None }

  function CheckedDouble(a: u32): Option<u32> { if 2 * a <= U32_MAX then Some(2 * a) else None }

  function SaturatingDouble(a: u32): u32 { if 2 * a <= U32_MAX then 2 * a else U32_MAX }

  // ------------------------------------------------------------------ text

  method FitText(text: string, maxWidth: real, style: Style, m: Metric) returns (r: string)
    ensures r == Fitted(text, maxWidth, style, m)
  {
    if m.width(text, style) <= maxWidth {
      return text;
    }
    var trimmed := TrimEnd(text);
    var fitted := "";
    var k := 0;
    while k < |trimmed|
      invariant k <= |trimmed| && fitted == trimmed[..k]
      invariant FitLength(trimmed, k, maxWidth, style, m) == FitLength(trimmed, 0, maxWidth, style, m)
    {
      var candidate := fitted + [trimmed[k]] + ELLIPSIS;
      assert candidate == trimmed[..k + 1] + ELLIPSIS;
      if m.width(candidate, style) > maxWidth {
        break;
      }
      fitted := fitted + [trimmed[k]];
      k := k + 1;
    }
    r := if fitted == "" then ELLIPSIS else fitted + ELLIPSIS;
  }

  // ----------------------------------------------------------------- cards

  /** The text of a card, fitted. */
  method FitCardText(step: Step, opts: Options, contentWidth: u32, m: Metric) returns (heading: string, caption: Option<string>)
    ensures heading == FittedHeading(step, opts, contentWidth, m)
    ensures caption == FittedCaption(step.caption, contentWidth, m)
  {
    heading := FitText(StepLabel(step.index, step.title, opts.showTitles), contentWidth as real, LABEL_STYLE, m);
    caption := None;
    var trimmed := match step.caption case Some(c) => NonEmptyCaption(c) case None => None;
    if trimmed.Some? {
      var fitted := FitText(Trim(trimmed.value), contentWidth as real, CAPTION_STYLE, m);
      caption := Some(fitted);
    }
  }

  /** Its height, if that fits a `u32`. */
  method MeasureText(heading: string, caption: Option<string>, m: Metric) returns (height: Option<u32>)
    ensures var h := TextHeight(heading, caption, m); height == if h <= U32_MAX then Some(h) else None
  {
    height := Some(m.height(heading, LABEL_STYLE));
    if caption.Some? {
      height := CheckedAdd(height.value, CAPTION_GAP);
      height := match height case Some(h) => CheckedAdd(h, m.height(caption.value, CAPTION_STYLE)) case None => None;
    }
  }

  /** The card, unless its height does not fit a `u32`. */
  function Bounded(card: Card): Option<Card> { if card.height <= U32_MAX then Some(card) else None }

  method FinishCard(
    heading: string, caption: Option<string>, textHeight: u32, image: Picture, imageHeight: u32, opts: Options, m: Metric)
    returns (card: Option<Card>)
    requires textHeight == TextHeight(heading, caption, m)
    ensures card == Bounded(CardWith(heading, caption, image, imageHeight, opts, m))
  {
    var height := CheckedDouble(opts.cardPadding);
    height := match height case Some(h) => CheckedAdd(h, textHeight) case None => None;
    height := match height case Some(h) => CheckedAdd(h, LABEL_GAP) case None => None;
    height := match height case Some(h) => CheckedAdd(h, imageHeight) case None => None;
    card := match height case Some(h) => Some(Card(heading, caption, image, h)) case None => None;
  }

  /** Measure one card; nothing if a height does not fit a `u32`. */
  method BuildCard(step: Step, opts: Options, contentWidth: u32, image: Picture, imageHeight: u32, m: Metric)
    returns (card: Option<Card>)
    ensures card == Bounded(CardWith(FittedHeading(step, opts, contentWidth, m), FittedCaption(step.caption, contentWidth, m),
                                     image, imageHeight, opts, m))
  {
    var heading, caption := FitCardText(step, opts, contentWidth, m);
    var textHeight := MeasureText(heading, caption, m);
    if textHeight.None? {
      return None;
    }
    card := FinishCard(heading, caption, textHeight.value, image, imageHeight, opts, m);
  }

  function BoundedCardOf(renderer: Renderer, step: Step, opts: Options, contentWidth: u32, m: Metric): Option<Card> {
    Bounded(CardOf(renderer, step, opts, contentWidth, m))
  }

  /** Every card is what the layout says, and its height fits. */
  predicate Measured(cards: seq<Card>, renderer: Renderer, steps: seq<Step>, opts: Options, contentWidth: u32, m: Metric) {
    && |cards| <= |steps|
    && forall i {:trigger cards[i]} | 0 <= i < |cards| :: MeasuredAs(cards[i], renderer, steps[i], opts, contentWidth, m)
  }

  predicate MeasuredAs(card: Card, renderer: Renderer, step: Step, opts: Options, contentWidth: u32, m: Metric) {
    Some(card) == BoundedCardOf(renderer, step, opts, contentWidth, m)
  }

  predicate SomeTooTall(renderer: Renderer, steps: seq<Step>, opts: Options, contentWidth: u32, m: Metric) {
    exists i | 0 <= i < |steps| :: BoundedCardOf(renderer, steps[i], opts, contentWidth, m).None?
  }

  method ScaleAndBuild(step: Step, opts: Options, contentWidth: u32, m: Metric) returns (card: Option<Card>)
    ensures card == BoundedCardOf(OnePass, step, opts, contentWidth, m)
  {
    var image := Downscaled(step.image, contentWidth);
    card := BuildCard(step, opts, contentWidth, image, image.height, m);
  }

  method BuildCards(steps: seq<Step>, opts: Options, contentWidth: u32, m: Metric) returns (r: Option<seq<Card>>)
    ensures r.Some? ==> |r.value| == |steps| && Measured(r.value, OnePass, steps, opts, contentWidth, m)
    ensures r.None? ==> SomeTooTall(OnePass, steps, opts, contentWidth, m)
  {
    var cards: seq<Card> := [];
    for i := 0 to |steps|
      invariant |cards| == i && Measured(cards, OnePass, steps, opts, contentWidth, m)
    {
      var card := ScaleAndBuild(steps[i], opts, contentWidth, m);
      match card {
        case None =>
          return None;
        case Some(c) =>
          MeasuredOneMore(cards, c, OnePass, steps, opts, contentWidth, m);
          cards := cards + [c];
      }
    }
    return Some(cards);
  }

  lemma {:induction false} MeasuredOneMore(
    cards: seq<Card>, card: Card, renderer: Renderer, steps: seq<Step>, opts: Options, contentWidth: u32, m: Metric)
    requires Measured(cards, renderer, steps, opts, contentWidth, m) && |cards| < |steps|
    requires MeasuredAs(card, renderer, steps[|cards|], opts, contentWidth, m)
    ensures Measured(cards + [card], renderer, steps, opts, contentWidth, m)
  {
    forall i | 0 <= i <= |cards|
      ensures MeasuredAs((cards + [card])[i], renderer, steps[i], opts, contentWidth, m)
    {
      if i < |cards| {
        assert MeasuredAs(cards[i], renderer, steps[i], opts, contentWidth, m);
      }
    }
  }

  datatype Loaded = Decoded | LoadCancelled | LoadFailed

  /** A cancellable rendering of `n` steps looks at the cancellation flag before each
      step is measured, once when all are (`polls` 0 to n), before each image is
      loaded (n + 1 on), and at the end. `polls` says what each look sees, `loads` how
      loading each image ends. */
  predicate StoppedEarly(polls: nat -> bool, n: nat) { exists k | 0 <= k <= n :: polls(k) }

  /** What stops the second pass, from image `i` on, if anything. */
  function StoppedLate(polls: nat -> bool, loads: nat -> Loaded, n: nat, i: nat): Option<StoryboardError>
    requires i <= n
    decreases n - i
  {
    if i == n then (if polls(2 * n + 1) then Some(Cancelled) else None)
    else if polls(n + 1 + i) || loads(i).LoadCancelled? then Some(Cancelled)
    else if loads(i).LoadFailed? then Some(Io)
    else StoppedLate(polls, loads, n, i + 1)
  }

  /** The first pass of the cancellable renderer: no image is decoded. */
  method MeasureCards(steps: seq<Step>, opts: Options, contentWidth: u32, m: Metric, polls: nat -> bool)
    returns (r: Result<seq<Card>>)
    ensures r.Ok? ==> |r.value| == |steps| && Measured(r.value, TwoPass, steps, opts, contentWidth, m)
    ensures r.Ok? ==> forall k | 0 <= k < |steps| :: !polls(k)
    ensures r.Err? ==>
              || (r.error.CanvasTooLarge? && SomeTooTall(TwoPass, steps, opts, contentWidth, m))
              || (r.error.Cancelled? && exists k | 0 <= k < |steps| :: polls(k))
  {
    var cards := [];
    for i := 0 to |steps|
      invariant forall k | 0 <= k < i :: !polls(k)
      invariant |cards| == i && Measured(cards, TwoPass, steps, opts, contentWidth, m)
    {
      if polls(i) {
        return Err(Cancelled);
      }
      var card := BuildCard(
        steps[i], opts, contentWidth, Downscaled(steps[i].image, contentWidth), ReservedHeight(steps[i].image, contentWidth), m);
      if card.None? {
        return Err(CanvasTooLarge);
      }
      cards := cards + [card.value];
    }
    return Ok(cards);
  }

  // ---------------------------------------------------------------- canvas

  method CanvasHeight(cards: seq<Card>, opts: Options) returns (r: Option<u32>)
    requires forall i | 0 <= i < |cards| :: cards[i].height <= U32_MAX
    ensures var h := StackHeight(cards, opts, |cards|); r == if h <= U32_MAX then Some(h) else None
  {
    var canvasHeight: u32;
    match CheckedDouble(opts.outerPadding) {
      case None =>
        StackGrows(cards, opts, 0, |cards|);
        return None;
      case Some(h) => canvasHeight := h;
    }
    for i := 0 to |cards|
      invariant canvasHeight == StackHeight(cards, opts, i)
    {
      StackGrows(cards, opts, i + 1, |cards|);
      if i > 0 {
        match CheckedAdd(canvasHeight, opts.cardSpacing) {
          case None => return None;
          case Some(h) => canvasHeight := h;
        }
      }
      match CheckedAdd(canvasHeight, cards[i].height) {
        case None => return None;
        case Some(h) => canvasHeight := h;
      }
    }
    return Some(canvasHeight);
  }

  /** The canvas a layout needs, if the `u32` and the pixel budget allow it. */
  method PlanCanvas(cards: seq<Card>, opts: Options) returns (r: Option<u32>)
    requires forall i | 0 <= i < |cards| :: cards[i].height <= U32_MAX
    ensures r == if FitsDown(cards, opts) then Some(StackHeight(cards, opts, |cards|)) else None
  {
    r := CanvasHeight(cards, opts);
    if r.Some? && opts.maxWidth * r.value > opts.maxCanvasPixels {
      r := None;
    }
  }

  /** The widths both renderers start from; the saturating doubling lets a huge
      padding through here, but then some later check refuses it. */
  method Widths(opts: Options) returns (r: Option<(u32, u32)>)
    ensures FitsAcross(opts) ==> r == Some((opts.maxWidth - 2 * opts.outerPadding, ContentWidth(opts)))
    ensures r.Some? && !FitsAcross(opts) ==> 2 * opts.outerPadding > U32_MAX || 2 * opts.cardPadding > U32_MAX
  {
    match CheckedSub(opts.maxWidth, SaturatingDouble(opts.outerPadding)) {
      case None => return None;
      case Some(cardWidth) =>
        match CheckedSub(cardWidth, SaturatingDouble(opts.cardPadding)) {
          case None => return None;
          case Some(contentWidth) => return Some((cardWidth, contentWidth));
        }
    }
  }

  // ---------------------------------------------------------------- pixels

  /** What is drawn at a place; `Photo` is a pixel of the image of a card. */
  datatype Pixel = White | Border | Background | Photo(card: nat, dx: nat, dy: nat)

  function CardPixel(x: nat, y: nat, width: nat, height: nat, row: nat, col: nat): Pixel {
    if col == x || row == y || col == x + width - 1 || row == y + height - 1 then Border else Background
  }

  predicate Covers(x: nat, y: nat, width: nat, height: nat, row: nat, col: nat) {
    x <= col < x + width && y <= row < y + height
  }

  predicate InCard(p: Placed, row: nat, col: nat) { Covers(p.x, p.y, p.width, p.card.height, row, col) }

  predicate InImage(p: Placed, row: nat, col: nat) {
    Covers(p.contentX, p.imageY, p.card.image.width, p.card.image.height, row, col)
  }

  /** What card number `i` and its image put at a place of theirs. */
  function OwnPixel(p: Placed, i: nat, row: nat, col: nat): Pixel
    requires InCard(p, row, col) || InImage(p, row, col)
  {
    if InImage(p, row, col) then Photo(i, col - p.contentX, row - p.imageY)
    else CardPixel(p.x, p.y, p.width, p.card.height, row, col)
  }

  /** What the first `n` cards, drawn in order, leave at a place. */
  function PixelAt(cards: seq<Placed>, n: nat, row: nat, col: nat): Pixel
    requires n <= |cards|
  {
    if n == 0 then White
    else if InCard(cards[n - 1], row, col) || InImage(cards[n - 1], row, col) then OwnPixel(cards[n - 1], n - 1, row, col)
    else PixelAt(cards, n - 1, row, col)
  }

  ghost predicate Painted(canvas: array2<Pixel>, cards: seq<Placed>)
    reads canvas
  {
    forall row, col | 0 <= row < canvas.Length0 && 0 <= col < canvas.Length1 ::
      canvas[row, col] == PixelAt(cards, |cards|, row, col)
  }

  predicate ImageInside(p: Placed) {
    && p.x <= p.contentX && p.contentX + p.card.image.width <= p.x + p.width
    && p.y <= p.imageY && p.imageY + p.card.image.height <= p.y + p.card.height
  }

  /** No card is drawn over by a later one. */
  lemma {:induction false} EveryCardShows(cards: seq<Placed>, spacing: nat, i: nat, n: nat, row: nat, col: nat)
    requires Stacked(cards, spacing) && i < n <= |cards| && InCard(cards[i], row, col)
    requires forall j | i <= j < n :: ImageInside(cards[j])
    ensures PixelAt(cards, n, row, col) == OwnPixel(cards[i], i, row, col)
  {
    if i < n - 1 {
      EveryCardShows(cards, spacing, i, n - 1, row, col);
      assert cards[i].y + cards[i].card.height + spacing <= cards[n - 1].y;
      assert ImageInside(cards[n - 1]);
    }
  }

  /** In a storyboard with content width every image shows in full, each of its
      pixels at its own place. */
  lemma EveryImageShows(renderer: Renderer, steps: seq<Step>, opts: Options, m: Metric, l: Layout, i: nat, dx: nat, dy: nat)
    requires LayoutOf(renderer, steps, opts, m) == Ok(l) && ContentWidth(opts) > 0 && i < |steps|
    requires var image := Downscaled(steps[i].image, ContentWidth(opts)); dx < image.width && dy < image.height
    ensures var p := l.cards[i];
            && p.imageY + dy < l.height && p.contentX + dx < l.width
            && PixelAt(l.cards, |l.cards|, p.imageY + dy, p.contentX + dx) == Photo(i, dx, dy)
  {
    CardsInCanvas(renderer, steps, opts, m, l);
    forall j | i <= j < |steps|
      ensures ImageInside(l.cards[j])
    {
      ImageContained(renderer, steps, opts, m, l, j);
    }
    ShownInFull(l, opts, i, dx, dy);
  }

  lemma ShownInFull(l: Layout, opts: Options, i: nat, dx: nat, dy: nat)
    requires InCanvas(l, opts) && Stacked(l.cards, opts.cardSpacing) && i < |l.cards|
    requires forall j | i <= j < |l.cards| :: ImageInside(l.cards[j])
    requires dx < l.cards[i].card.image.width && dy < l.cards[i].card.image.height
    ensures var p := l.cards[i];
            && p.imageY + dy < l.height && p.contentX + dx < l.width
            && PixelAt(l.cards, |l.cards|, p.imageY + dy, p.contentX + dx) == Photo(i, dx, dy)
  {
    var p := l.cards[i];
    assert ImageInside(p);
    EveryCardShows(l.cards, opts.cardSpacing, i, |l.cards|, p.imageY + dy, p.contentX + dx);
  }

  lemma ImageContained(renderer: Renderer, steps: seq<Step>, opts: Options, m: Metric, l: Layout, i: nat)
    requires LayoutOf(renderer, steps, opts, m) == Ok(l) && ContentWidth(opts) > 0 && i < |steps|
    ensures ImageInside(l.cards[i]) && l.cards[i].card.image == Downscaled(steps[i].image, ContentWidth(opts))
  {
    ImagesInCards(renderer, steps, opts, m, l, i);
    CardsInCanvas(renderer, steps, opts, m, l);
    var cards := LaidOutCards(renderer, steps, opts, m, l);
    assert l.cards[i] in l.cards;
  }

  /** `replace`: the image's pixels over the canvas, as far as they lie on it. */
  method DrawImage(canvas: array2<Pixel>, card: nat, x: u32, y: u32, image: Picture)
    requires canvas.Length0 <= U32_MAX && canvas.Length1 <= U32_MAX
    modifies canvas
    ensures forall row, col | 0 <= row < canvas.Length0 && 0 <= col < canvas.Length1 ::
              canvas[row, col] == if Covers(x, y, image.width, image.height, row, col)
                                  then Photo(card, col - x, row - y) else old(canvas[row, col])
  {
    for dy := 0 to image.height
      invariant forall row, col | 0 <= row < canvas.Length0 && 0 <= col < canvas.Length1 ::
                  canvas[row, col] == if row < y + dy && Covers(x, y, image.width, image.height, row, col)
                                      then Photo(card, col - x, row - y) else old(canvas[row, col])
    {
      for dx := 0 to image.width
        invariant forall row, col | 0 <= row < canvas.Length0 && 0 <= col < canvas.Length1 ::
                    canvas[row, col] == if (row < y + dy || (row == y + dy && col < x + dx))
                                           && Covers(x, y, image.width, image.height, row, col)
                                        then Photo(card, col - x, row - y) else old(canvas[row, col])
      {
        if y + dy < canvas.Length0 && x + dx < canvas.Length1 {
          canvas[y + dy, x + dx] := Photo(card, dx, dy);
        }
      }
    }
  }

  method DrawCard(canvas: array2<Pixel>, x: u32, y: u32, width: u32, height: u32)
    requires x + width <= canvas.Length1 <= U32_MAX && y + height <= canvas.Length0 <= U32_MAX
    modifies canvas
    ensures forall row, col | 0 <= row < canvas.Length0 && 0 <= col < canvas.Length1 ::
              canvas[row, col] == if Covers(x, y, width, height, row, col)
                                  then CardPixel(x, y, width, height, row, col) else old(canvas[row, col])
  {
    for yy := y to y + height
      invariant forall row, col | 0 <= row < canvas.Length0 && 0 <= col < canvas.Length1 ::
                  canvas[row, col] == if row < yy && Covers(x, y, width, height, row, col)
                                      then CardPixel(x, y, width, height, row, col) else old(canvas[row, col])
    {
      for xx := x to x + width
        invariant forall row, col | 0 <= row < canvas.Length0 && 0 <= col < canvas.Length1 ::
                    canvas[row, col] == if (row < yy || (row == yy && col < xx)) && Covers(x, y, width, height, row, col)
                                        then CardPixel(x, y, width, height, row, col) else old(canvas[row, col])
      {
        var isBorder := xx == x || yy == y || xx == x + width - 1 || yy == y + height - 1;
        canvas[yy, xx] := if isBorder then Border else Background;
      }
    }
  }

  // -------------------------------------------------------------- rendering

  datatype Rendered = Rendered(layout: Layout, canvas: array2<Pixel>)

  /** A rendering is the storyboard the layout describes, or its refusal. */
  ghost predicate Matches(r: Result<Rendered>, expected: Result<Layout>)
    reads if r.Ok? then {r.value.canvas} else {}
  {
    match r
    case Err(e) => expected == Err(e)
    case Ok(v) =>
      && expected == Ok(v.layout)
      && v.canvas.Length0 == v.layout.height && v.canvas.Length1 == v.layout.width
      && Painted(v.canvas, v.layout.cards)
  }

  predicate Holds(card: Card, opts: Options, m: Metric) {
    2 * opts.cardPadding + TextHeight(card.heading, card.caption, m) + LABEL_GAP <= card.height <= U32_MAX
  }

  /** Where a card's contents go, added up without checks. */
  method PlaceContent(card: Card, y: u32, cardWidth: u32, opts: Options, m: Metric) returns (p: Placed)
    requires Holds(card, opts, m) && y + card.height <= U32_MAX
    requires opts.outerPadding + opts.cardPadding <= U32_MAX
    ensures p == PlacedAt(card, y, cardWidth, opts, m)
  {
    var contentX: u32 := opts.outerPadding + opts.cardPadding;
    var contentY: u32 := y + opts.cardPadding;
    var labelY := contentY;
    contentY := contentY + m.height(card.heading, LABEL_STYLE);
    var captionY: Option<nat> := None;
    if card.caption.Some? {
      contentY := contentY + CAPTION_GAP;
      captionY := Some(contentY);
      contentY := contentY + m.height(card.caption.value, CAPTION_STYLE);
    }
    contentY := contentY + LABEL_GAP;
    p := Placed(card, opts.outerPadding, y, cardWidth, contentX, labelY, captionY, contentY);
  }

  /** The cards placed so far are where the layout puts them. */
  predicate PlacedSoFar(placed: seq<Placed>, cards: seq<Card>, opts: Options, m: Metric) {
    && |placed| <= |cards| && 2 * opts.outerPadding <= opts.maxWidth
    && forall i {:trigger placed[i]} | 0 <= i < |placed| :: InPlace(placed[i], cards, i, opts, m)
  }

  predicate InPlace(p: Placed, cards: seq<Card>, i: nat, opts: Options, m: Metric)
    requires i < |cards| && 2 * opts.outerPadding <= opts.maxWidth
  {
    p == PlacedAt(cards[i], CardTop(cards, opts, i), opts.maxWidth - 2 * opts.outerPadding, opts, m)
  }

  /** Draw the next card at its place on the canvas. */
  method DrawNext(canvas: array2<Pixel>, cards: seq<Card>, placed: seq<Placed>, y: u32, cardWidth: u32, opts: Options, m: Metric)
    returns (p: Placed)
    requires PlacedSoFar(placed, cards, opts, m) && |placed| < |cards| && FitsAcross(opts)
    requires y == CardTop(cards, opts, |placed|) && cardWidth == opts.maxWidth - 2 * opts.outerPadding
    requires Holds(cards[|placed|], opts, m)
    requires canvas.Length0 == StackHeight(cards, opts, |cards|) <= U32_MAX && canvas.Length1 == opts.maxWidth
    requires Painted(canvas, placed)
    modifies canvas
    ensures PlacedSoFar(placed + [p], cards, opts, m)
    ensures Painted(canvas, placed + [p])
  {
    var card := cards[|placed|];
    TopInCanvas(cards, opts, |placed|);
    p := PlaceContent(card, y, cardWidth, opts, m);
    PlacedOneMore(placed, p, cards, opts, m);
    PaintCard(canvas, placed, p);
  }

  lemma {:induction false} PlacedOneMore(placed: seq<Placed>, p: Placed, cards: seq<Card>, opts: Options, m: Metric)
    requires PlacedSoFar(placed, cards, opts, m) && |placed| < |cards| && InPlace(p, cards, |placed|, opts, m)
    ensures PlacedSoFar(placed + [p], cards, opts, m)
  {
    forall i | 0 <= i <= |placed|
      ensures InPlace((placed + [p])[i], cards, i, opts, m)
    {
      if i < |placed| {
        assert InPlace(placed[i], cards, i, opts, m);
      }
    }
  }

  method PaintCard(canvas: array2<Pixel>, placed: seq<Placed>, p: Placed)
    requires p.x + p.width <= canvas.Length1 <= U32_MAX && p.y + p.card.height <= canvas.Length0 <= U32_MAX
    requires p.contentX <= U32_MAX && p.imageY <= U32_MAX
    requires Painted(canvas, placed)
    modifies canvas
    ensures Painted(canvas, placed + [p])
  {
    DrawCard(canvas, p.x, p.y, p.width, p.card.height);
    DrawImage(canvas, |placed|, p.contentX, p.imageY, p.card.image);
    PaintOnTop(placed, p);
  }

  lemma TopInCanvas(cards: seq<Card>, opts: Options, i: nat)
    requires i < |cards|
    ensures CardTop(cards, opts, i) + cards[i].height + opts.outerPadding <= StackHeight(cards, opts, |cards|)
  {
    TopIsStack(cards, opts, i);
    StackGrows(cards, opts, i + 1, |cards|);
  }

  lemma {:induction false} PaintOnTop(placed: seq<Placed>, p: Placed)
    ensures forall row: nat, col: nat ::
              PixelAt(placed + [p], |placed| + 1, row, col) ==
              if InCard(p, row, col) || InImage(p, row, col) then OwnPixel(p, |placed|, row, col)
              else PixelAt(placed, |placed|, row, col)
  {
    forall row: nat, col: nat
      ensures PixelAt(placed + [p], |placed|, row, col) == PixelAt(placed, |placed|, row, col)
    {
      PixelAtPrefix(placed, placed + [p], |placed|, row, col);
    }
  }

  lemma {:induction false} PixelAtPrefix(a: seq<Placed>, b: seq<Placed>, n: nat, row: nat, col: nat)
    requires n <= |a| && n <= |b| && a[..n] == b[..n]
    ensures PixelAt(a, n, row, col) == PixelAt(b, n, row, col)
  {
    if n > 0 {
      assert a[n - 1] == a[..n][n - 1] && b[n - 1] == b[..n][n - 1];
      assert a[..n - 1] == a[..n][..n - 1] && b[..n - 1] == b[..n][..n - 1];
      PixelAtPrefix(a, b, n - 1, row, col);
    }
  }

  /** The top of the next card, added up without checks. */
  method Advance(cards: seq<Card>, opts: Options, i: nat, y: u32) returns (y': u32)
    requires i < |cards| && StackHeight(cards, opts, |cards|) <= U32_MAX && y == CardTop(cards, opts, i)
    ensures i + 1 < |cards| ==> y' == CardTop(cards, opts, i + 1)
  {
    TopInCanvas(cards, opts, i);
    y' := y + cards[i].height;
    if i + 1 < |cards| {
      TopInCanvas(cards, opts, i + 1);
      y' := y' + opts.cardSpacing;
    }
  }

  lemma AllPlaced(placed: seq<Placed>, cards: seq<Card>, opts: Options, m: Metric)
    requires PlacedSoFar(placed, cards, opts, m) && |placed| == |cards|
    ensures Layout(opts.maxWidth, StackHeight(cards, opts, |cards|), placed) == Arranged(cards, opts, m)
  {
    forall i | 0 <= i < |cards|
      ensures placed[i] == Arranged(cards, opts, m).cards[i]
    {
      assert InPlace(placed[i], cards, i, opts, m);
    }
  }

  /** `render_cards`: plan the canvas, then draw every card on it. */
  method RenderCards(cards: seq<Card>, opts: Options, cardWidth: u32, m: Metric) returns (r: Result<Rendered>)
    requires cards != [] && forall i | 0 <= i < |cards| :: Holds(cards[i], opts, m)
    requires FitsAcross(opts) ==> cardWidth == opts.maxWidth - 2 * opts.outerPadding
    requires !FitsAcross(opts) ==> 2 * opts.outerPadding > U32_MAX
    ensures Matches(r, if FitsAcross(opts) && FitsDown(cards, opts) then Ok(Arranged(cards, opts, m)) else Err(CanvasTooLarge))
  {
    var height := PlanCanvas(cards, opts);
    StackGrows(cards, opts, 0, |cards|);
    if height.None? {
      return Err(CanvasTooLarge);
    }
    var canvas, placed := DrawAll(cards, opts, cardWidth, height.value, m);
    AllPlaced(placed, cards, opts, m);
    return Ok(Rendered(Layout(opts.maxWidth, height.value, placed), canvas));
  }

  method DrawAll(cards: seq<Card>, opts: Options, cardWidth: u32, height: u32, m: Metric)
    returns (canvas: array2<Pixel>, placed: seq<Placed>)
    requires cards != [] && forall i | 0 <= i < |cards| :: Holds(cards[i], opts, m)
    requires FitsAcross(opts) && cardWidth == opts.maxWidth - 2 * opts.outerPadding
    requires height == StackHeight(cards, opts, |cards|)
    ensures |placed| == |cards| && PlacedSoFar(placed, cards, opts, m)
    ensures canvas.Length0 == height && canvas.Length1 == opts.maxWidth && Painted(canvas, placed)
  {
    canvas := new Pixel[height, opts.maxWidth]((_, _) => White);
    var y: u32 := opts.outerPadding;
    placed := [];
    for i := 0 to |cards|
      invariant |placed| == i && PlacedSoFar(placed, cards, opts, m)
      invariant i < |cards| ==> y == CardTop(cards, opts, i)
      invariant Painted(canvas, placed)
    {
      var p := DrawNext(canvas, cards, placed, y, cardWidth, opts, m);
      placed := placed + [p];
      y := Advance(cards, opts, i, y);
    }
  }

  lemma MeasuredHold(cards: seq<Card>, renderer: Renderer, steps: seq<Step>, opts: Options, contentWidth: u32, m: Metric)
    requires Measured(cards, renderer, steps, opts, contentWidth, m) && |cards| == |steps| > 0
    ensures forall i | 0 <= i < |cards| :: Holds(cards[i], opts, m)
    ensures cards == Cards(renderer, steps, opts, contentWidth, m) && 2 * opts.cardPadding <= U32_MAX
  {
    forall i | 0 <= i < |cards|
      ensures Holds(cards[i], opts, m) && cards[i] == CardOf(renderer, steps[i], opts, contentWidth, m)
    {
      assert MeasuredAs(cards[i], renderer, steps[i], opts, contentWidth, m);
    }
    assert Holds(cards[0], opts, m);
  }

  lemma TallCard(cards: seq<Card>, opts: Options, i: nat)
    requires i < |cards| && cards[i].height > U32_MAX
    ensures StackHeight(cards, opts, |cards|) > U32_MAX
  {
    StackGrows(cards, opts, i + 1, |cards|);
  }

  /** A card too tall to measure makes the canvas too tall. */
  lemma TooTall(renderer: Renderer, steps: seq<Step>, opts: Options, contentWidth: u32, m: Metric)
    requires FitsAcross(opts) ==> contentWidth == ContentWidth(opts)
    requires SomeTooTall(renderer, steps, opts, contentWidth, m)
    ensures LayoutOf(renderer, steps, opts, m) == Err(CanvasTooLarge)
  {
    if FitsAcross(opts) {
      var i :| 0 <= i < |steps| && BoundedCardOf(renderer, steps[i], opts, contentWidth, m).None?;
      TallCard(Cards(renderer, steps, opts, contentWidth, m), opts, i);
    }
  }

  /** `render_storyboard_steps`. */
  method RenderSteps(steps: seq<Step>, opts: Options, m: Metric) returns (r: Result<Rendered>)
    ensures Matches(r, LayoutOf(OnePass, steps, opts, m))
  {
    if steps == [] {
      return Err(Empty);
    }
    var widths := Widths(opts);
    if widths.None? {
      return Err(CanvasTooLarge);
    }
    var (cardWidth, contentWidth) := widths.value;
    var cards := BuildCards(steps, opts, contentWidth, m);
    if cards.None? {
      TooTall(OnePass, steps, opts, contentWidth, m);
      return Err(CanvasTooLarge);
    }
    MeasuredHold(cards.value, OnePass, steps, opts, contentWidth, m);
    r := RenderCards(cards.value, opts, cardWidth, m);
  }

  /** The second pass: load, draw and release one image at a time. */
  method RenderLoading(cards: seq<Card>, opts: Options, cardWidth: u32, m: Metric, polls: nat -> bool, loads: nat -> Loaded)
    returns (r: Result<Rendered>)
    requires cards != [] && forall i | 0 <= i < |cards| :: Holds(cards[i], opts, m)
    requires FitsAcross(opts) ==> cardWidth == opts.maxWidth - 2 * opts.outerPadding
    requires !FitsAcross(opts) ==> 2 * opts.outerPadding > U32_MAX
    ensures if !FitsAcross(opts) || !FitsDown(cards, opts) then Matches(r, Err(CanvasTooLarge))
            else match StoppedLate(polls, loads, |cards|, 0)
              case Some(e) => r.Err? && r.error == e
              case None => Matches(r, Ok(Arranged(cards, opts, m)))
  {
    var height := PlanCanvas(cards, opts);
    StackGrows(cards, opts, 0, |cards|);
    if height.None? {
      return Err(CanvasTooLarge);
    }
    var canvas, placed, stop := LoadAndDrawAll(cards, opts, cardWidth, height.value, m, polls, loads);
    if stop.Some? {
      return Err(stop.value);
    }
    AllPlaced(placed, cards, opts, m);
    return Ok(Rendered(Layout(opts.maxWidth, height.value, placed), canvas));
  }

  /** What lies between two cards: a poll, and the loading of the next image. */
  method PollAndLoad(polls: nat -> bool, loads: nat -> Loaded, n: nat, i: nat) returns (stop: Option<StoryboardError>)
    requires i < n
    ensures StoppedLate(polls, loads, n, i) == if stop.Some? then stop else StoppedLate(polls, loads, n, i + 1)
  {
    if polls(n + 1 + i) {
      return Some(Cancelled);
    }
    match loads(i) {
      case LoadCancelled => return Some(Cancelled);
      case LoadFailed => return Some(Io);
      case Decoded => return None;
    }
  }

  method LoadAndDrawAll(
    cards: seq<Card>, opts: Options, cardWidth: u32, height: u32, m: Metric, polls: nat -> bool, loads: nat -> Loaded)
    returns (canvas: array2<Pixel>, placed: seq<Placed>, stop: Option<StoryboardError>)
    requires cards != [] && forall i | 0 <= i < |cards| :: Holds(cards[i], opts, m)
    requires FitsAcross(opts) && cardWidth == opts.maxWidth - 2 * opts.outerPadding
    requires height == StackHeight(cards, opts, |cards|)
    ensures stop == StoppedLate(polls, loads, |cards|, 0)
    ensures stop.None? ==> |placed| == |cards| && PlacedSoFar(placed, cards, opts, m)
    ensures stop.None? ==> canvas.Length0 == height && canvas.Length1 == opts.maxWidth && Painted(canvas, placed)
  {
    canvas := new Pixel[height, opts.maxWidth]((_, _) => White);
    var y: u32 := opts.outerPadding;
    placed := [];
    for i := 0 to |cards|
      invariant |placed| == i && PlacedSoFar(placed, cards, opts, m)
      invariant i < |cards| ==> y == CardTop(cards, opts, i)
      invariant Painted(canvas, placed)
      invariant StoppedLate(polls, loads, |cards|, i) == StoppedLate(polls, loads, |cards|, 0)
    {
      stop := PollAndLoad(polls, loads, |cards|, i);
      if stop.Some? {
        return;
      }
      var p := DrawNext(canvas, cards, placed, y, cardWidth, opts, m);
      placed := placed + [p];
      y := Advance(cards, opts, i, y);
    }
    stop := if polls(2 * |cards| + 1) then Some(Cancelled) else None;
  }

  /** `render_reviewed_storyboard_cancellable`. */
  method RenderCancellable(steps: seq<Step>, opts: Options, m: Metric, polls: nat -> bool, loads: nat -> Loaded)
    returns (r: Result<Rendered>)
    ensures LayoutOf(TwoPass, steps, opts, m).Ok? ==>
              if StoppedEarly(polls, |steps|) then r.Err? && r.error == Cancelled
              else match StoppedLate(polls, loads, |steps|, 0)
                case Some(e) => r.Err? && r.error == e
                case None => Matches(r, LayoutOf(TwoPass, steps, opts, m))
    ensures LayoutOf(TwoPass, steps, opts, m).Err? ==>
              Matches(r, LayoutOf(TwoPass, steps, opts, m)) || (r.Err? && r.error == Cancelled && StoppedEarly(polls, |steps|))
    ensures steps == [] ==> r.Err? && r.error == Empty
  {
    if steps == [] {
      return Err(Empty);
    }
    var widths := Widths(opts);
    if widths.None? {
      return Err(CanvasTooLarge);
    }
    var (cardWidth, contentWidth) := widths.value;
    var measured := MeasureCards(steps, opts, contentWidth, m, polls);
    if measured.Err? {
      if measured.error.CanvasTooLarge? {
        TooTall(TwoPass, steps, opts, contentWidth, m);
      }
      return Err(measured.error);
    }
    if polls(|steps|) {
      return Err(Cancelled);
    }
    MeasuredHold(measured.value, TwoPass, steps, opts, contentWidth, m);
    r := RenderLoading(measured.value, opts, cardWidth, m, polls, loads);
  }
}
