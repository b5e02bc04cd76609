/**
 * The countdown line of an assessment (app/assets/js/assessment-timing.js):
 * `refresh` compares the current time with the start and end in the node's
 * rendering data, picks a message and a colour for the parent element, and puts
 * the message in the node's last text child. The countdown library's phrases
 * ("3 hours and 2 minutes") arrive as opaque strings.
 */
module AssessmentTiming {
  import opened JsText

  /**
   * A value read from the rendering JSON where a number is expected. `Null` is
   * JSON `null`, which a relational comparison converts to 0. `Undefined` is a
   * missing key, and stands as well for any other value whose numeric conversion
   * is NaN (a non-numeric string, an object). `NotANumber` is the NaN value itself,
   * which the guard in `refresh` tests for; `JSON.parse` never produces it.
   */
  datatype JsNumber = Number(value: int) | Null | NotANumber | Undefined

  /** `now < x`: null reads as 0; false when x is NaN or undefined. */
  predicate Before(now: int, x: JsNumber)
  {
    match x
    case Number(v) => now < v
    case Null => now < 0
    case _ => false
  }

  /** `now > x`: null reads as 0; false when x is NaN or undefined. */
  predicate After(now: int, x: JsNumber)
  {
    match x
    case Number(v) => now > v
    case Null => now > 0
    case _ => false
  }

  /** The parsed `data-rendering` attribute. `studentStarted` is taken by truthiness. */
  datatype Rendering = Rendering(start: JsNumber, end: JsNumber, studentStarted: bool)

  /** The branch of the `if` chain that `refresh` takes. */
  datatype Branch = InProgressStarted | InProgressNotStarted | NotYetOpen | Missed | NoBranch

  /** The `if` / `else if` chain, in source order: window first, then before start, then after end. */
  function Classify(now: int, r: Rendering): Branch
  {
    if Before(now, r.end) && After(now, r.start) then
      (if r.studentStarted then InProgressStarted else InProgressNotStarted)
    else if Before(now, r.start) then NotYetOpen
    else if After(now, r.end) then Missed
    else NoBranch
  }

  /** Each branch is taken exactly under its comparison; anything else matches no branch. */
  lemma ClassifyCases(now: int, r: Rendering)
    ensures Classify(now, r) == InProgressStarted <==> Before(now, r.end) && After(now, r.start) && r.studentStarted
    ensures Classify(now, r) == InProgressNotStarted <==> Before(now, r.end) && After(now, r.start) && !r.studentStarted
    ensures Classify(now, r) == NotYetOpen <==> !(Before(now, r.end) && After(now, r.start)) && Before(now, r.start)
    ensures Classify(now, r) == Missed <==> !Before(now, r.start) && After(now, r.end) && !(Before(now, r.end) && After(now, r.start))
    ensures Classify(now, r) == NoBranch <==> !(Before(now, r.end) && After(now, r.start)) && !Before(now, r.start) && !After(now, r.end)
  {
  }

  /** The comparisons are strict: at exactly the start or the end of an ordered window nothing matches. */
  lemma BoundariesMatchNoBranch(now: int, r: Rendering)
    requires r.start.Number? && r.end.Number? && r.start.value <= r.end.value
    requires now == r.start.value || now == r.end.value
    ensures Classify(now, r) == NoBranch
  {
  }

  /** "Before start" is checked before "after end": with start after end, a time past both ends reads as not yet open. */
  lemma BeforeStartWinsOverAfterEnd(now: int, r: Rendering)
    requires Before(now, r.start) && After(now, r.end)
    ensures Classify(now, r) == NotYetOpen
  {
  }

  /** A `null` start or end is compared as the time 0: the branch is the one for `Number(0)`. */
  lemma NullReadsAsZero(now: int, r: Rendering)
    ensures r.start.Null? ==> Classify(now, r) == Classify(now, r.(start := Number(0)))
    ensures r.end.Null? ==> Classify(now, r) == Classify(now, r.(end := Number(0)))
  {
  }

  /** With a `null` start (the epoch) and an end still ahead, any positive time is inside the window. */
  lemma NullStartOpensWindow(now: int, r: Rendering)
    requires r.start.Null? && r.end.Number? && 0 < now < r.end.value
    ensures Classify(now, r) == (if r.studentStarted then InProgressStarted else InProgressNotStarted)
  {
  }

  /** With a `null` end (the epoch), any positive time that is not before the start reads as missed. */
  lemma NullEndMisses(now: int, r: Rendering)
    requires r.end.Null? && 0 < now && !Before(now, r.start)
    ensures Classify(now, r) == Missed
  {
  }

  /** A start that is missing or NaN never opens the window; only "after end" can still match. */
  lemma MissingStartOnlyMisses(now: int, r: Rendering)
    requires r.start.Undefined? || r.start.NotANumber?
    ensures Classify(now, r) in {Missed, NoBranch}
    ensures Classify(now, r) == Missed <==> After(now, r.end)
  {
  }

  /** The text `refresh` builds for a branch; no branch leaves `text` undefined (None). */
  function BranchText(b: Branch, sinceStart: string, untilEnd: string, untilStart: string): Option<string>
  {
    match b
    case InProgressStarted => Some("Started " + sinceStart + " ago, " + untilEnd + " remaining.")
    case InProgressNotStarted => Some(untilEnd + " left to start")
    case NotYetOpen => Some("You can start in " + untilStart)
    case Missed => Some("You missed the exam, please contact your department")
    case NoBranch => None
  }

  datatype Colour = Green | Red

  /** Only a started student inside the window is shown in green; every other message is red. */
  function BranchColour(b: Branch): (c: Option<Colour>)
    ensures c == Some(Green) <==> b == InProgressStarted
    ensures c.None? <==> b == NoBranch
  {
    match b
    case InProgressStarted => Some(Green)
    case NoBranch => None
    case _ => Some(Red)
  }

  /** `document.createTextNode(text)` stringifies its argument, so an undefined text reads "undefined". */
  function TextNodeContent(text: Option<string>): string
  {
    match text
    case Some(t) => t
    case None => "undefined"
  }

  /** A child of the countdown node. */
  datatype ChildNode = TextNode(content: string) | OtherNode(id: nat)

  /** The replacement at the end of `refresh`: the last child is replaced, or the text is appended to an empty node. */
  function ReplaceLast(children: seq<ChildNode>, t: ChildNode): (r: seq<ChildNode>)
    ensures |r| == if children == [] then 1 else |children|
    ensures r[|r| - 1] == t
    ensures r[..|r| - 1] == if children == [] then [] else children[..|children| - 1]
  {
    if children == [] then [t] else children[..|children| - 1] + [t]
  }

  /** The class list after `setGreen` (Some(Green)), `setRed` (Some(Red)) or neither (None). */
  function Coloured(classes: set<string>, c: Option<Colour>): (r: set<string>)
    ensures c.Some? ==> ("text-danger" in r <==> c == Some(Red)) && ("text-info" in r <==> c == Some(Green))
    ensures c.None? ==> r == classes
    ensures r - {"text-danger", "text-info"} == classes - {"text-danger", "text-info"}
  {
    match c
    case Some(Green) => classes - {"text-danger"} + {"text-info"}
    case Some(Red) => classes + {"text-danger"} - {"text-info"}
    case None => classes
  }

  /** A DOM element: its class list and its children. */
  class Element {
    var classes: set<string>
    var children: seq<ChildNode>

    constructor (classes: set<string>, children: seq<ChildNode>)
      ensures this.classes == classes && this.children == children
    {
      this.classes := classes;
      this.children := children;
    }
  }

  /** `setGreen(el)`. */
  method SetGreen(el: Element)
    modifies el
    ensures el.classes == Coloured(old(el.classes), Some(Green)) && el.children == old(el.children)
  {
    el.classes := el.classes - {"text-danger"};
    el.classes := el.classes + {"text-info"};
  }

  /** `setRed(el)`. */
  method SetRed(el: Element)
    modifies el
    ensures el.classes == Coloured(old(el.classes), Some(Red)) && el.children == old(el.children)
  {
    el.classes := el.classes + {"text-danger"};
    el.classes := el.classes - {"text-info"};
  }

  /**
   * `refresh(node)` at time `now`. The guard returns early only when `end` is NaN
   * (it tests `end` twice and never `start`). Otherwise the parent is coloured for
   * the branch and the node ends with one new text child holding the message.
   */
  method Refresh(node: Element, parent: Element, r: Rendering, now: int,
                 sinceStart: string, untilEnd: string, untilStart: string)
    requires node != parent
    modifies node, parent
    ensures r.end.NotANumber? ==> node.children == old(node.children) && parent.classes == old(parent.classes)
    ensures !r.end.NotANumber? ==>
      parent.classes == Coloured(old(parent.classes), BranchColour(Classify(now, r)))
      && node.children == ReplaceLast(old(node.children),
                                      TextNode(TextNodeContent(BranchText(Classify(now, r), sinceStart, untilEnd, untilStart))))
    ensures node.classes == old(node.classes) && parent.children == old(parent.children)
  {
    if r.end.NotANumber? || r.end.NotANumber? {
      return;
    }
    var text: Option<string> := None;
    if Before(now, r.end) && After(now, r.start) {
      if r.studentStarted {
        text := Some("Started " + sinceStart + " ago, " + untilEnd + " remaining.");
        SetGreen(parent);
      } else {
        text := Some(untilEnd + " left to start");
        SetRed(parent);
      }
    } else if Before(now, r.start) {
      text := Some("You can start in " + untilStart);
      SetRed(parent);
    } else if After(now, r.end) {
      text := Some("You missed the exam, please contact your department");
      SetRed(parent);
    }
    assert text == BranchText(Classify(now, r), sinceStart, untilEnd, untilStart);
    assert parent.classes == Coloured(old(parent.classes), BranchColour(Classify(now, r)));
    assert node.classes == old(node.classes) && node.children == old(node.children) && parent.children == old(parent.children);
    var textNode := TextNode(TextNodeContent(text));
    if node.children != [] {
      node.children := node.children[..|node.children| - 1] + [textNode];
    } else {
      node.children := node.children + [textNode];
    }
  }
}
