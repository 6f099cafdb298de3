/**
 * The full-screen intro loader (components/PageLoader.tsx).
 *
 * The loader walks through four phases.  A click, or a fallback timer for
 * visitors who never click, triggers the entry exactly once: a latch set on
 * the first trigger turns every later one into a no-op.  The trigger moves
 * to `Chiming` and schedules `Dot` and `Done`; crawlers skip straight to
 * `Done` when the component mounts.  Timers are explicit event methods here.
 */
module PageLoader {

  datatype Phase = Waiting | Chiming | Dot | Done

  /** Position of a phase in the order the loader goes through them. */
  function Rank(p: Phase): (n: nat)
    ensures n <= 3
    ensures p == Waiting <==> n == 0
    ensures p == Done <==> n == 3
  {
    match p
    case Waiting => 0
    case Chiming => 1
    case Dot => 2
    case Done => 3
  }

  /** A phase change that never goes back: stay, or move to the next phase. */
  predicate Advances(before: Phase, after: Phase)
  {
    after == before || Rank(after) == Rank(before) + 1
  }

  // ---------------------------------------------------------------------
  // Crawler detection: /bot|googlebot|crawler|spider|robot|crawling|lighthouse/i

  /**
   * Case folding for this pattern.  Every alternative is lower-case ASCII,
   * and without the `u` flag the `i` flag never folds a non-ASCII character
   * onto an ASCII one, so only `A`-`Z` can match a pattern letter
   * case-insensitively; folding them alone decides the test.
   */
  function LowerAscii(c: char): (d: char)
    ensures 'A' <= c <= 'Z' ==> 'a' <= d <= 'z' && d as int - c as int == 32
    ensures !('A' <= c <= 'Z') ==> d == c
  {
    if 'A' <= c <= 'Z' then (c as int + 32) as char else c
  }

  function Lower(s: string): (r: string)
    ensures |r| == |s|
    ensures forall i :: 0 <= i < |s| ==> r[i] == LowerAscii(s[i])
  {
    if s == [] then [] else [LowerAscii(s[0])] + Lower(s[1..])
  }

  /** `p` occurs in `s` starting at position `i`. */
  predicate OccursAt(s: string, p: string, i: nat)
  {
    i + |p| <= |s| && s[i..i + |p|] == p
  }

  /** Substring search, one starting position at a time. */
  function Contains(s: string, p: string): (b: bool)
    ensures b <==> exists i: nat :: OccursAt(s, p, i)
    decreases |s|
  {
    if |s| < |p| then
      assert forall i: nat :: !OccursAt(s, p, i);
      false
    else if s[..|p|] == p then
      assert OccursAt(s, p, 0);
      true
    else
      var rest := Contains(s[1..], p);
      assert forall i: nat :: OccursAt(s, p, i + 1) <==> OccursAt(s[1..], p, i) by {
        forall i: nat ensures OccursAt(s, p, i + 1) <==> OccursAt(s[1..], p, i) {
          if i + 1 + |p| <= |s| {
            var here, there := s[i + 1..i + 1 + |p|], s[1..][i..i + |p|];
            forall j | 0 <= j < |p| ensures here[j] == there[j] {
            }
            assert here == there;
          }
        }
      }
      assert forall i: nat :: OccursAt(s, p, i) && i > 0 ==> OccursAt(s[1..], p, i - 1) by {
        forall i: nat | OccursAt(s, p, i) && i > 0 ensures OccursAt(s[1..], p, i - 1) {
          assert OccursAt(s, p, (i - 1) + 1);
        }
      }
      rest
  }

  const BotWords: seq<string> := ["bot", "googlebot", "crawler", "spider", "robot", "crawling", "lighthouse"]

  function AnyOccurs(s: string, words: seq<string>): (b: bool)
    ensures b <==> exists k :: 0 <= k < |words| && Contains(s, words[k])
  {
    if words == [] then false
    else if Contains(s, words[0]) then true
    else
      var rest := AnyOccurs(s, words[1..]);
      assert forall k :: 1 <= k < |words| ==> words[k] == words[1..][k - 1];
      rest
  }

  /** The user-agent test that lets crawlers and audits skip the loader. */
  function IsBot(userAgent: string): (b: bool)
    ensures b <==> exists k :: 0 <= k < |BotWords| && Contains(Lower(userAgent), BotWords[k])
  {
    AnyOccurs(Lower(userAgent), BotWords)
  }

  // ---------------------------------------------------------------------
  // What is on screen in each phase

  datatype Overlay = Overlay(loader: bool, prompt: bool, dot: bool, pointer: bool)

  /**
   * The overlay is drawn until `Done`; the "tap to enter" prompt and the
   * pointer cursor only while waiting; the dot only in its own phase.
   */
  function View(p: Phase): (v: Overlay)
    ensures v.loader <==> p != Done
    ensures v.prompt <==> p == Waiting
    ensures v.dot <==> p == Dot
    ensures v.pointer <==> v.prompt
    ensures (v.prompt || v.dot) ==> v.loader
    ensures !(v.prompt && v.dot)
  {
    Overlay(p != Done, p == Waiting, p == Dot, p == Waiting)
  }

  // ---------------------------------------------------------------------
  // The component

  class Loader {
    var phase: Phase
    /** The one-shot latch. */
    var hasTriggered: bool
    /** The mount effect has run. */
    var mounted: bool
    /** The 4 s fallback timer is scheduled and has not fired. */
    var fallbackPending: bool
    /** The 900 ms timer to `Dot` is scheduled and has not fired. */
    var dotPending: bool
    /** The 1600 ms timer to `Done` is scheduled and has not fired. */
    var donePending: bool
    /** How many times the chime was played. */
    var chimes: nat

    ghost predicate Valid()
      reads this
    {
      && (!mounted ==> phase == Waiting && !hasTriggered && !fallbackPending)
      && (!hasTriggered ==> !dotPending && !donePending && chimes == 0)
      && (!hasTriggered ==> phase == Waiting || (phase == Done && !fallbackPending))
      && (hasTriggered ==> phase != Waiting && chimes <= 1)
      && (dotPending ==> donePending && phase == Chiming)
      && (donePending && !dotPending ==> phase == Dot)
      && (hasTriggered && !donePending ==> phase == Done)
    }

    constructor ()
      ensures Valid()
      ensures phase == Waiting && !hasTriggered && !mounted
      ensures !fallbackPending && !dotPending && !donePending && chimes == 0
    {
      phase := Waiting;
      hasTriggered := false;
      mounted := false;
      fallbackPending := false;
      dotPending := false;
      donePending := false;
      chimes := 0;
    }

    /** The mount effect: crawlers go straight to `Done`, humans get a fallback timer. */
    method Mount(userAgent: string)
      requires Valid() && !mounted
      modifies this
      ensures Valid() && mounted
      ensures IsBot(userAgent) ==> phase == Done && !fallbackPending
      ensures !IsBot(userAgent) ==> phase == Waiting && fallbackPending
      ensures hasTriggered == old(hasTriggered) && chimes == old(chimes)
      ensures dotPending == old(dotPending) && donePending == old(donePending)
    {
      mounted := true;
      if IsBot(userAgent) {
        phase := Done;
      } else {
        fallbackPending := true;
      }
    }

    /**
     * `triggerEnter`: the first call latches, enters `Chiming`, plays the
     * chime if a user asked for it and schedules the two phase timers;
     * every later call changes nothing.
     */
    method TriggerEnter(fromUserInteraction: bool)
      requires Valid() && mounted && (hasTriggered || phase == Waiting)
      modifies this
      ensures Valid() && Advances(old(phase), phase)
      ensures old(hasTriggered) ==> phase == old(phase) && chimes == old(chimes)
      ensures old(hasTriggered) ==> dotPending == old(dotPending) && donePending == old(donePending)
      ensures !old(hasTriggered) ==> phase == Chiming && dotPending && donePending
      ensures chimes == old(chimes) + (if !old(hasTriggered) && fromUserInteraction then 1 else 0)
      ensures hasTriggered && mounted && fallbackPending == old(fallbackPending)
    {
      if hasTriggered {
        return;
      }
      hasTriggered := true;
      phase := Chiming;
      if fromUserInteraction {
        chimes := chimes + 1;
      }
      dotPending := true;
      donePending := true;
    }

    /** A click on the overlay, which is there only until `Done`. */
    method Click()
      requires Valid() && mounted && View(phase).loader
      modifies this
      ensures Valid() && Advances(old(phase), phase)
      ensures !old(hasTriggered) ==> phase == Chiming && chimes == old(chimes) + 1
      ensures old(hasTriggered) ==> phase == old(phase) && chimes == old(chimes)
      ensures hasTriggered && fallbackPending == old(fallbackPending)
    {
      TriggerEnter(true);
    }

    /** The 4 s fallback: a silent trigger. */
    method FireFallback()
      requires Valid() && fallbackPending
      modifies this
      ensures Valid() && Advances(old(phase), phase) && !fallbackPending
      ensures !old(hasTriggered) ==> phase == Chiming
      ensures old(hasTriggered) ==> phase == old(phase)
      ensures chimes == old(chimes) && hasTriggered
    {
      fallbackPending := false;
      TriggerEnter(false);
    }

    /** The 900 ms timer. */
    method FireDot()
      requires Valid() && dotPending
      modifies this
      ensures Valid() && Advances(old(phase), phase)
      ensures old(phase) == Chiming && phase == Dot && !dotPending && donePending
      ensures chimes == old(chimes) && fallbackPending == old(fallbackPending)
      ensures hasTriggered == old(hasTriggered) && mounted == old(mounted)
    {
      phase := Dot;
      dotPending := false;
    }

    /**
     * The 1600 ms timer.  Both timers are scheduled by the same trigger, so
     * the 900 ms one has already fired.
     */
    method FireDone()
      requires Valid() && donePending && !dotPending
      modifies this
      ensures Valid() && Advances(old(phase), phase)
      ensures old(phase) == Dot && phase == Done && !donePending
      ensures chimes == old(chimes) && fallbackPending == old(fallbackPending)
      ensures hasTriggered == old(hasTriggered) && mounted == old(mounted)
    {
      phase := Done;
      donePending := false;
    }
  }

  // ---------------------------------------------------------------------
  // Whole visits, event by event

  /** A human who clicks: one chime, and every phase in order. */
  method ClickedVisit(userAgent: string) returns (trace: seq<Phase>, chimes: nat)
    requires !IsBot(userAgent)
    ensures trace == [Waiting, Chiming, Dot, Done]
    ensures chimes == 1
  {
    var l := new Loader();
    l.Mount(userAgent);
    trace := [l.phase];
    l.Click();
    trace := trace + [l.phase];
    l.Click();
    l.FireDot();
    trace := trace + [l.phase];
    l.FireDone();
    l.FireFallback();
    trace := trace + [l.phase];
    chimes := l.chimes;
  }

  /** A human who never clicks: the fallback enters silently. */
  method SilentVisit(userAgent: string) returns (trace: seq<Phase>, chimes: nat)
    requires !IsBot(userAgent)
    ensures trace == [Waiting, Chiming, Dot, Done]
    ensures chimes == 0
  {
    var l := new Loader();
    l.Mount(userAgent);
    trace := [l.phase];
    l.FireFallback();
    trace := trace + [l.phase];
    l.FireDot();
    trace := trace + [l.phase];
    l.FireDone();
    trace := trace + [l.phase];
    chimes := l.chimes;
  }

  /** A crawler: `Done` at mount, no timer left to fire, no overlay to click. */
  method CrawlerVisit(userAgent: string) returns (trace: seq<Phase>, timersLeft: bool)
    requires IsBot(userAgent)
    ensures trace == [Waiting, Done]
    ensures !timersLeft
  {
    var l := new Loader();
    trace := [l.phase];
    l.Mount(userAgent);
    trace := trace + [l.phase];
    timersLeft := l.fallbackPending || l.dotPending || l.donePending;
  }
}
