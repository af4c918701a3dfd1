/** The page's session (assets/js/app.js): which of the three views is
    shown, how often the No button was hovered, the tease text and where
    the No button sits, together with the handlers that change them. */
module App {
  import opened Geometry
  import opened RandomDraws
  import opened Sampler
  import opened Tease

  /** Narrowest window that still counts as a desktop. */
  const MinDesktopWidth: int := 820

  /** What isProbablyDesktop asks the browser: the two media queries (false
      when matchMedia is unavailable) and the window's inner width. */
  datatype Capabilities = Capabilities(hasHover: bool, hasFinePointer: bool, innerWidth: int)

  predicate IsProbablyDesktop(c: Capabilities) {
    c.hasHover && c.hasFinePointer && c.innerWidth >= MinDesktopWidth
  }

  /** Without hover support the page is never treated as a desktop,
      however wide the window. */
  lemma NoHoverNoDesktop(c: Capabilities)
    requires !c.hasHover
    ensures !IsProbablyDesktop(c)
  {
  }

  /** A window narrower than the threshold is never a desktop. */
  lemma NarrowNoDesktop(c: Capabilities)
    requires c.innerWidth < MinDesktopWidth
    ensures !IsProbablyDesktop(c)
  {
  }

  /** Widening the window keeps a desktop a desktop. */
  lemma WiderStaysDesktop(c: Capabilities, w: int)
    requires IsProbablyDesktop(c) && w >= c.innerWidth
    ensures IsProbablyDesktop(c.(innerWidth := w))
  {
  }

  datatype View = Mobile | Question | Success

  /** The views in the order setView visits them. */
  const AllViews: seq<View> := [Mobile, Question, Success]

  /** Where the No button sits: wherever the stylesheet puts it, the
      centred 60%/60% spot resetGame gives it, or a pixel corner that
      moveNoButton chose. */
  datatype NoPosition = Stylesheet | Centered | At(x: int, y: int)

  class Session {
    /** Whether each view carries the `hidden` class. */
    var hidden: map<View, bool>
    var noHoverCount: nat
    var tease: string
    var noPos: NoPosition
    /** Whether init installed the click, hover and resize handlers; it
        does so only when the page first loads as a desktop. */
    var listening: bool

    /** The view that is not hidden. */
    function Current(): View
      reads this
      requires forall v: View :: v in hidden
    {
      if !hidden[Mobile] then Mobile else if !hidden[Question] then Question else Success
    }

    ghost predicate Valid()
      reads this
    {
      && (forall v: View :: v in hidden)
      && (forall v: View :: hidden[v] <==> v != Current())
      && (listening && noHoverCount == 0 ==> tease == "")
      && (listening && noHoverCount > 0 ==> tease in TeaseLines)
      && (noPos.At? ==> EdgePadding <= noPos.x && EdgePadding <= noPos.y)
    }

    /** init: the fallback view when the page does not load as a desktop;
        otherwise the question view, a reset game and live handlers. */
    constructor (c: Capabilities, initialTease: string)
      ensures Valid()
      ensures listening == IsProbablyDesktop(c)
      ensures listening ==> Current() == Question && noHoverCount == 0 && tease == "" && noPos == Centered
      ensures !listening ==> Current() == Mobile && noHoverCount == 0 && tease == initialTease && noPos == Stylesheet
    {
      hidden := map[];
      noHoverCount := 0;
      tease := initialTease;
      noPos := Stylesheet;
      listening := false;
      new;
      if IsProbablyDesktop(c) {
        SetView(Question);
        ResetGame();
        listening := true;
      } else {
        SetView(Mobile);
      }
    }

    /** setView: hide every view, then show `w`. */
    method SetView(w: View)
      modifies this`hidden
      ensures forall v: View :: v in hidden && (hidden[v] <==> v != w)
      ensures Current() == w
    {
      var i := 0;
      while i < |AllViews|
        invariant 0 <= i <= |AllViews|
        invariant forall k :: 0 <= k < i ==> AllViews[k] in hidden && hidden[AllViews[k]]
      {
        hidden := hidden[AllViews[i] := true];
        i := i + 1;
      }
      forall v: View ensures v in hidden && hidden[v] {
        var k := if v == Mobile then 0 else if v == Question then 1 else 2;
        assert AllViews[k] == v;
      }
      hidden := hidden[w := false];
    }

    /** resetGame: zero hovers, no tease text, the No button back at its
        centred spot, and the question view. */
    method ResetGame()
      modifies this
      ensures Valid()
      ensures Current() == Question && noHoverCount == 0 && tease == "" && noPos == Centered
      ensures listening == old(listening)
    {
      noHoverCount := 0;
      tease := "";
      noPos := Centered;
      SetView(Question);
    }

    /** moveNoButton: put the No button where the placement search lands. */
    method MoveNoButton(l: Layout, draws: seq<Draw>)
      requires Valid() && ValidDraws(draws)
      modifies this`noPos
      ensures Valid()
      ensures noPos == At(Placement(l, draws).x, Placement(l, draws).y)
    {
      var x, y := Place(l, draws);
      noPos := At(x, y);
    }

    /** Click on Yes: the success view. */
    method ClickYes()
      requires Valid()
      modifies this
      ensures Valid()
      ensures listening == old(listening) && noHoverCount == old(noHoverCount)
      ensures tease == old(tease) && noPos == old(noPos)
      ensures listening ==> Current() == Success
      ensures !listening ==> hidden == old(hidden)
    {
      if listening {
        SetView(Success);
      }
    }

    /** Click on "again": a reset game. */
    method ClickAgain()
      requires Valid()
      modifies this
      ensures Valid()
      ensures listening == old(listening)
      ensures listening ==> Current() == Question && noHoverCount == 0 && tease == "" && noPos == Centered
      ensures !listening ==> hidden == old(hidden) && noHoverCount == old(noHoverCount)
                             && tease == old(tease) && noPos == old(noPos)
    {
      if listening {
        ResetGame();
      }
    }

    /** The pointer enters the No button: count the hover, update the
        tease text with Math.random() result `r`, and move the button. */
    method HoverNo(r: real, l: Layout, draws: seq<Draw>)
      requires Valid() && Unit(r) && ValidDraws(draws)
      modifies this
      ensures Valid()
      ensures listening == old(listening) && hidden == old(hidden)
      ensures listening ==> noHoverCount == old(noHoverCount) + 1
                            && tease == NextTease(noHoverCount, old(tease), r)
                            && noPos == At(Placement(l, draws).x, Placement(l, draws).y)
      ensures !listening ==> noHoverCount == old(noHoverCount) && tease == old(tease)
                             && noPos == old(noPos)
    {
      if listening {
        noHoverCount := noHoverCount + 1;
        tease := NextTease(noHoverCount, tease, r);
        MoveNoButton(l, draws);
      }
    }

    /** The window is resized: the fallback view when it no longer looks
        like a desktop; otherwise a new spot for the No button if the
        question view is showing. Nothing returns the page from the
        fallback view to the question view. */
    method Resize(c: Capabilities, l: Layout, draws: seq<Draw>)
      requires Valid() && ValidDraws(draws)
      modifies this
      ensures Valid()
      ensures listening == old(listening) && noHoverCount == old(noHoverCount) && tease == old(tease)
      ensures listening && !IsProbablyDesktop(c) ==> Current() == Mobile && noPos == old(noPos)
      ensures listening && IsProbablyDesktop(c) ==>
                hidden == old(hidden) &&
                noPos == (if old(Current()) == Question
                          then At(Placement(l, draws).x, Placement(l, draws).y)
                          else old(noPos))
      ensures !listening ==> hidden == old(hidden) && noPos == old(noPos)
      ensures old(Current()) == Mobile ==> Current() == Mobile
    {
      if !listening {
        return;
      }
      if !IsProbablyDesktop(c) {
        SetView(Mobile);
        return;
      }
      if !hidden[Question] {
        MoveNoButton(l, draws);
      }
    }
  }
}
