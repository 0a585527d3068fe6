/**
 What a captured window's geometry says, and the two verdicts drawn from it: the exclusive-fullscreen
 evidence before a recording (app/diagnostics/WindowTargetFacts.cpp) and the answer to a starved
 capture during one (app/diagnostics/WindowCaptureStall.cpp). Gathering the facts is Win32's part.
 */
module WindowTargetFacts {
  import opened EngineTypes
  import opened WindowCaptureStall

  const WS_CAPTION: bv64 := 0x00C0_0000
  const WS_THICKFRAME: bv64 := 0x0004_0000
  const EVIDENCE_MIN_SECONDS: real := 2.0

  datatype Rect = Rect(left: int, top: int, right: int, bottom: int)

  datatype TargetFacts = TargetFacts(
    valid: bool, visible: bool, minimized: bool, cloaked: bool, windowRect: Rect, monitorRect: Rect,
    style: bv64, qunsD3dFullscreen: bool)

  datatype WindowShape = Normal | FullscreenShaped

  datatype HubEvidence = HubEvidence(
    kind: HubFrameKind, secondsSubscribed: real, secondsSinceFreshFrame: real, freshFrameSinceFullscreenShape: bool)

  datatype ExclusiveEvidence = NoEvidence | Suspected | ProvenBlack

  predicate Covers(w: Rect, m: Rect) {
    w.left <= m.left && w.top <= m.top && w.right >= m.right && w.bottom >= m.bottom
  }

  predicate HasPixel(r: Rect, x: int, y: int) {
    r.left <= x < r.right && r.top <= y < r.bottom
  }

  /** On a monitor with an area, the comparison of edges says that no pixel of it is left exposed. */
  lemma {:induction false} CoversEveryPixel(w: Rect, m: Rect)
    requires m.left < m.right && m.top < m.bottom
    ensures Covers(w, m) <==> forall x, y :: HasPixel(m, x, y) ==> HasPixel(w, x, y)
  {
    if forall x, y :: HasPixel(m, x, y) ==> HasPixel(w, x, y) {
      assert HasPixel(m, m.left, m.top);
      assert HasPixel(m, m.right - 1, m.bottom - 1);
    }
  }

  /** No pixel of the monitor lies outside the window; without an area, no edge does. */
  ghost predicate LeavesNothingExposed(facts: TargetFacts) {
    var w, m := facts.windowRect, facts.monitorRect;
    if m.left < m.right && m.top < m.bottom then forall x, y :: HasPixel(m, x, y) ==> HasPixel(w, x, y)
    else w.left <= m.left && w.top <= m.top && m.right <= w.right && m.bottom <= w.bottom
  }

  /** The two bits of a caption, the border and the dialog frame, and the bit of a sizing frame. */
  ghost predicate HasFurniture(style: bv64) {
    (style & 0x0080_0000 != 0 && style & 0x0040_0000 != 0) || style & 0x0004_0000 != 0
  }

  /** A live, visible window, neither minimized nor cloaked, that leaves nothing of its monitor exposed and
      has neither a whole caption nor a sizing frame. */
  ghost predicate LooksFullscreen(facts: TargetFacts) {
    && facts.valid && facts.visible && !facts.minimized && !facts.cloaked
    && LeavesNothingExposed(facts) && !HasFurniture(facts.style)
  }

  lemma {:induction false} FurnitureBits(style: bv64)
    ensures style & WS_CAPTION == WS_CAPTION <==> style & 0x0080_0000 != 0 && style & 0x0040_0000 != 0
  {
  }

  function ClassifyWindowShape(facts: TargetFacts): WindowShape {
    if !facts.valid || !facts.visible || facts.minimized || facts.cloaked then Normal
    else if !Covers(facts.windowRect, facts.monitorRect) then Normal
    else
      var hasCaption := facts.style & WS_CAPTION == WS_CAPTION;
      var hasFrame := facts.style & WS_THICKFRAME != 0;
      if hasCaption || hasFrame then Normal else FullscreenShaped
  }

  lemma {:induction false} FullscreenShapedIff(facts: TargetFacts)
    ensures ClassifyWindowShape(facts).FullscreenShaped? <==> LooksFullscreen(facts)
  {
    var w, m := facts.windowRect, facts.monitorRect;
    FurnitureBits(facts.style);
    if m.left < m.right && m.top < m.bottom {
      CoversEveryPixel(w, m);
    }
  }

  function CombineFullscreenEvidence(shape: WindowShape, hub: HubEvidence, fullscreenSignal: bool): ExclusiveEvidence {
    if !shape.FullscreenShaped? then NoEvidence
    else
      var neverProduced := hub.kind.NoFrame? && hub.secondsSubscribed >= EVIDENCE_MIN_SECONDS;
      var frozeAtTransition :=
        && hub.kind.Held? && !hub.freshFrameSinceFullscreenShape
        && hub.secondsSinceFreshFrame >= EVIDENCE_MIN_SECONDS;
      if neverProduced || frozeAtTransition then ProvenBlack
      else if fullscreenSignal then Suspected
      else NoEvidence
  }

  function ResolveExclusiveEvidence(facts: TargetFacts, hub: HubEvidence, presentExclusiveFullscreen: bool)
    : ExclusiveEvidence
  {
    var signal := facts.qunsD3dFullscreen || presentExclusiveFullscreen;
    CombineFullscreenEvidence(ClassifyWindowShape(facts), hub, signal)
  }

  // ----- The answer to a starved capture -----

  datatype StallCause = NoCause | Minimized | ExclusiveFullscreen

  function EvaluateWindowStall(facts: TargetFacts, presentFse: bool): StallCause {
    if facts.minimized then Minimized
    else if ClassifyWindowShape(facts).FullscreenShaped? && (facts.qunsD3dFullscreen || presentFse) then
      ExclusiveFullscreen
    else NoCause
  }

  function ClassifyConfirmedStall(facts: TargetFacts, presentFse: bool): StallVerdict {
    if !facts.valid || !facts.visible || facts.cloaked then Legitimate
    else if EvaluateWindowStall(facts, presentFse).Minimized? then Legitimate
    else if !ClassifyWindowShape(facts).FullscreenShaped? then Unknown
    else Stalled
  }

  /** A starved window is reported exactly when it looks fullscreen, and its silence is legitimate exactly when
      it is gone, hidden, minimized or cloaked. */
  lemma {:induction false} StalledIff(facts: TargetFacts, presentFse: bool)
    ensures ClassifyConfirmedStall(facts, presentFse).Stalled? <==> LooksFullscreen(facts)
    ensures ClassifyConfirmedStall(facts, presentFse).Legitimate? <==>
              !(facts.valid && facts.visible && !facts.minimized && !facts.cloaked)
  {
    FullscreenShapedIff(facts);
  }

  /** The cause claimed for it. */
  lemma {:induction false} CauseIff(facts: TargetFacts, presentFse: bool)
    ensures EvaluateWindowStall(facts, presentFse).Minimized? <==> facts.minimized
    ensures EvaluateWindowStall(facts, presentFse).ExclusiveFullscreen? <==>
              LooksFullscreen(facts) && (facts.qunsD3dFullscreen || presentFse)
  {
    FullscreenShapedIff(facts);
  }

  function ClassifyConfirmedDisplayStall(consoleDisplayOff: bool, capturedDisplayMissing: bool): StallVerdict {
    if consoleDisplayOff || capturedDisplayMissing then Stalled else Unknown
  }

  /** The fullscreen observation refines the cause and never the verdict; and a cause that is claimed is
      one that is reported, on a window the evidence before a recording does not call clean. */
  lemma {:induction false} CauseRefinesOnly(facts: TargetFacts, hub: HubEvidence, p: bool, q: bool)
    ensures ClassifyConfirmedStall(facts, p) == ClassifyConfirmedStall(facts, q)
    ensures EvaluateWindowStall(facts, p).ExclusiveFullscreen? ==>
              && ClassifyConfirmedStall(facts, q).Stalled?
              && !ResolveExclusiveEvidence(facts, hub, p).NoEvidence?
    ensures EvaluateWindowStall(facts, p).Minimized? ==> ClassifyConfirmedStall(facts, q).Legitimate?
  {
  }
}
