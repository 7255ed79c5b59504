/**
 * The scroll rule shared by both sidebars and the bottom navigation bar: each
 * scroll event compares the new offset with the previous one and with a
 * threshold, hides the element when scrolling down past the threshold, shows
 * it when scrolling up or near the top, and remembers the offset clamped at 0.
 */
module ScrollVisibility {

  /** The pair `(visible, lastScrollTop)` a component keeps between scroll events. */
  datatype ScrollState = ScrollState(visible: bool, lastScrollTop: int)

  /** The state before any scroll event: visible, at offset 0. */
  const Initial: ScrollState := ScrollState(true, 0)

  /** The update one scroll event to `scrollTop` makes. */
  function Step(s: ScrollState, scrollTop: int, threshold: int): (r: ScrollState)
    ensures scrollTop > s.lastScrollTop && scrollTop > threshold ==> !r.visible
    ensures scrollTop < s.lastScrollTop || scrollTop <= threshold ==> r.visible
    ensures scrollTop == s.lastScrollTop && scrollTop > threshold ==> r.visible == s.visible
    ensures r.lastScrollTop >= 0
    ensures scrollTop > 0 ==> r.lastScrollTop == scrollTop
    ensures scrollTop <= 0 ==> r.lastScrollTop == 0
  {
    var visible :=
      if scrollTop > s.lastScrollTop && scrollTop > threshold then false
      else if scrollTop < s.lastScrollTop || scrollTop <= threshold then true
      else s.visible;
    ScrollState(visible, if scrollTop <= 0 then 0 else scrollTop)
  }

  /** An event hides the element exactly when it scrolls down past the threshold, or holds still while hidden. */
  lemma HiddenIff(s: ScrollState, scrollTop: int, threshold: int)
    ensures !Step(s, scrollTop, threshold).visible <==>
      (scrollTop > s.lastScrollTop && scrollTop > threshold)
      || (!s.visible && scrollTop == s.lastScrollTop && scrollTop > threshold)
  {
  }

  /** Repeated events at one offset change nothing after the first, once the remembered offset is not negative. */
  lemma StepIdempotent(s: ScrollState, scrollTop: int, threshold: int)
    requires s.lastScrollTop >= 0
    ensures Step(Step(s, scrollTop, threshold), scrollTop, threshold) == Step(s, scrollTop, threshold)
  {
  }

  /** The state after a run of scroll events. */
  function Replay(s: ScrollState, offsets: seq<int>, threshold: int): ScrollState
    decreases |offsets|
  {
    if offsets == [] then s else Replay(Step(s, offsets[0], threshold), offsets[1..], threshold)
  }

  /** Whatever the events, the remembered offset stays not negative, and the last event decides it. */
  lemma {:induction false} ReplayKeepsOffset(s: ScrollState, offsets: seq<int>, threshold: int)
    requires s.lastScrollTop >= 0
    ensures Replay(s, offsets, threshold).lastScrollTop >= 0
    ensures offsets != [] ==>
      (Replay(s, offsets, threshold).lastScrollTop ==
         if offsets[|offsets| - 1] <= 0 then 0 else offsets[|offsets| - 1])
    decreases |offsets|
  {
    if offsets != [] {
      ReplayKeepsOffset(Step(s, offsets[0], threshold), offsets[1..], threshold);
    }
  }

  /** Reaching an offset at or under the threshold always shows the element, whatever came before. */
  lemma {:induction false} ReplayEndingNearTopIsVisible(s: ScrollState, offsets: seq<int>, threshold: int)
    requires offsets != [] && offsets[|offsets| - 1] <= threshold
    ensures Replay(s, offsets, threshold).visible
    decreases |offsets|
  {
    if |offsets| > 1 {
      ReplayEndingNearTopIsVisible(Step(s, offsets[0], threshold), offsets[1..], threshold);
    }
  }
}
