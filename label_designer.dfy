/** QR placement on the device label (src/components/LabelDesigner.tsx):
    the anchored left edge for each position, the effect that snaps or
    re-clamps the offsets, dragging inside the label, the design reset and
    the clamp on the export pixel ratio. Label and QR sizes are whole
    pixels, as cmToPx returns them; pointer positions and offsets are
    reals, because the drag arithmetic divides by the preview scale. */
module LabelDesigner {
  import opened Common

  datatype QrPosition = BottomLeft | BottomRight | BottomCenter

  /** `Math.round` on a real: the nearest integer, halves rounded up. */
  function JsRound(x: real): int
  {
    (x + 0.5).Floor
  }

  /** For a whole number of pixels, rounding its half is a division that
      rounds up. */
  lemma JsRoundHalf(n: int)
    ensures JsRound(n as real / 2.0) == (n + 1) / 2
  {
    var k := (n + 1) / 2;
    assert n + 1 == 2 * k || n + 1 == 2 * k + 1;
    assert n as real / 2.0 + 0.5 == (n + 1) as real / 2.0;
    assert k as real <= (n + 1) as real / 2.0 < k as real + 1.0;
  }

  /** computeLeft: the left edge of the QR for an anchored position. */
  function ComputeLeft(pos: QrPosition, containerW: int, qrW: int, margin: int): (r: int)
    ensures r >= margin
    ensures pos == BottomLeft ==> r == margin
    ensures pos == BottomRight ==> r == Max(margin, containerW - qrW - margin)
    ensures pos == BottomCenter ==> r == Max(margin, (containerW - qrW + 1) / 2)
  {
    match pos
    case BottomLeft => margin
    case BottomRight => Max(margin, containerW - qrW - margin)
    case BottomCenter =>
      JsRoundHalf(containerW - qrW);
      Max(margin, JsRound((containerW - qrW) as real / 2.0))
  }

  /** When the QR fits with margins on both sides, every anchor keeps it
      inside the label with at least the margin to its right. */
  lemma AnchoredQrFits(pos: QrPosition, w: int, q: int, margin: int)
    requires margin >= 0 && q >= 0 && w - q >= 2 * margin
    ensures ComputeLeft(pos, w, q, margin) + q + margin <= w
  {
  }

  /** `Math.max(0, Math.min(v, room))`. */
  function ClampOffset(v: real, room: int): (r: real)
    ensures r >= 0.0
    ensures room >= 0 ==> r <= room as real
    ensures room < 0 ==> r == 0.0
    ensures 0.0 <= v <= room as real ==> r == v
    ensures v > room as real && room >= 0 ==> r == room as real
    ensures v < 0.0 ==> r == 0.0
  {
    if v < room as real then (if v < 0.0 then 0.0 else v)
    else (if room < 0 then 0.0 else room as real)
  }

  /** Clamping twice is clamping once. */
  lemma ClampIdempotent(v: real, room: int)
    ensures ClampOffset(ClampOffset(v, room), room) == ClampOffset(v, room)
  {
  }

  /** The pixel ratio of the PNG export: the chosen scale kept in [1, 4]. */
  function ExportPixelRatio(exportScale: real): (r: real)
    ensures 1.0 <= r <= 4.0
    ensures 1.0 <= exportScale <= 4.0 ==> r == exportScale
    ensures exportScale < 1.0 ==> r == 1.0
    ensures exportScale > 4.0 ==> r == 4.0
  {
    var lo := if exportScale > 1.0 then exportScale else 1.0;
    if lo < 4.0 then lo else 4.0
  }

  /** The offsets lie inside the label, so the QR stays within it. */
  predicate InLabel(x: real, y: real, labelW: int, labelH: int, qr: int)
  {
    0.0 <= x && 0.0 <= y && (labelW >= qr ==> x <= (labelW - qr) as real)
    && (labelH >= qr ==> y <= (labelH - qr) as real)
  }

  class QrPlacer {
    var labelW: int
    var labelH: int
    var qrSize: int
    var position: QrPosition
    var dragEnabled: bool
    var offsetX: real
    var offsetY: real
    var dragging: bool
    var dragStartX: real
    var dragStartY: real

    constructor (labelW: int, labelH: int, qrSize: int)
      ensures this.labelW == labelW && this.labelH == labelH && qrSize == this.qrSize
      ensures position == BottomCenter && dragEnabled && offsetX == 8.0 && offsetY == 8.0 && !dragging
    {
      this.labelW, this.labelH, this.qrSize := labelW, labelH, qrSize;
      position, dragEnabled := BottomCenter, true;
      offsetX, offsetY := 8.0, 8.0;
      dragging := false;
      dragStartX, dragStartY := 0.0, 0.0;
    }

    /** The effect run when the drag switch, the position or a size
        changes: with drag off the QR snaps to its anchor (eight pixels
        above the bottom edge); with drag on the current offsets are
        re-clamped into the label. */
    method Sync()
      modifies this
      ensures !dragEnabled ==> (offsetX == ComputeLeft(position, labelW, qrSize, 8) as real
                                && offsetY == (labelH - qrSize - 8) as real)
      ensures dragEnabled ==> (offsetX == ClampOffset(old(offsetX), labelW - qrSize)
                               && offsetY == ClampOffset(old(offsetY), labelH - qrSize))
      ensures dragEnabled ==> InLabel(offsetX, offsetY, labelW, labelH, qrSize)
      ensures labelW == old(labelW) && labelH == old(labelH) && qrSize == old(qrSize)
      ensures position == old(position) && dragEnabled == old(dragEnabled)
      ensures dragging == old(dragging) && dragStartX == old(dragStartX) && dragStartY == old(dragStartY)
    {
      var baseLeft := ComputeLeft(position, labelW, qrSize, 8);
      var baseTop := labelH - qrSize - 8;
      offsetX := if dragEnabled then ClampOffset(offsetX, labelW - qrSize) else baseLeft as real;
      offsetY := if dragEnabled then ClampOffset(offsetY, labelH - qrSize) else baseTop as real;
    }

    /** onQrPointerDown: records where in the QR it was grabbed. */
    method PointerDown(px: real, py: real)
      modifies this
      ensures dragEnabled ==> dragging && dragStartX == px - offsetX && dragStartY == py - offsetY
      ensures !dragEnabled ==> dragging == old(dragging) && dragStartX == old(dragStartX) && dragStartY == old(dragStartY)
      ensures offsetX == old(offsetX) && offsetY == old(offsetY)
      ensures labelW == old(labelW) && labelH == old(labelH) && qrSize == old(qrSize)
      ensures position == old(position) && dragEnabled == old(dragEnabled)
    {
      if !dragEnabled { return; }
      dragging := true;
      dragStartX := px - offsetX;
      dragStartY := py - offsetY;
    }

    /** onQrPointerMove: while dragging, the grabbed point follows the
        pointer and the offsets are clamped to the label. */
    method PointerMove(px: real, py: real)
      modifies this
      ensures dragEnabled && dragging ==>
                offsetX == ClampOffset(px - dragStartX, labelW - qrSize)
                && offsetY == ClampOffset(py - dragStartY, labelH - qrSize)
                && InLabel(offsetX, offsetY, labelW, labelH, qrSize)
      ensures !(dragEnabled && dragging) ==> offsetX == old(offsetX) && offsetY == old(offsetY)
      ensures dragging == old(dragging) && dragStartX == old(dragStartX) && dragStartY == old(dragStartY)
      ensures labelW == old(labelW) && labelH == old(labelH) && qrSize == old(qrSize)
      ensures position == old(position) && dragEnabled == old(dragEnabled)
    {
      if !dragEnabled || !dragging { return; }
      offsetX := ClampOffset(px - dragStartX, labelW - qrSize);
      offsetY := ClampOffset(py - dragStartY, labelH - qrSize);
    }

    /** onQrPointerUp: ends the drag. */
    method PointerUp()
      modifies this
      ensures dragEnabled ==> !dragging
      ensures !dragEnabled ==> dragging == old(dragging)
      ensures dragStartX == old(dragStartX) && dragStartY == old(dragStartY)
      ensures offsetX == old(offsetX) && offsetY == old(offsetY)
      ensures labelW == old(labelW) && labelH == old(labelH) && qrSize == old(qrSize)
      ensures position == old(position) && dragEnabled == old(dragEnabled)
    {
      if !dragEnabled { return; }
      dragging := false;
    }

    /** The design reset: the QR goes back to bottom-centre, horizontally
        centred and eight pixels above the bottom edge (not rounded and
        not clamped). */
    method Reset()
      modifies this
      ensures position == BottomCenter
      ensures offsetX == (labelW - qrSize) as real / 2.0 && offsetY == (labelH - qrSize - 8) as real
      ensures labelW == old(labelW) && labelH == old(labelH) && qrSize == old(qrSize)
      ensures dragEnabled == old(dragEnabled) && dragging == old(dragging)
      ensures dragStartX == old(dragStartX) && dragStartY == old(dragStartY)
    {
      position := BottomCenter;
      offsetX := (labelW - qrSize) as real / 2.0;
      offsetY := (labelH - qrSize - 8) as real;
    }

    /** A commit in which the reset effect runs: on mount, when the reset
        trigger changes, and whenever the label or QR size changes (its
        dependencies include the sizes, and the device page always passes a
        numeric trigger). The sizes take their new values; the snap effect
        runs first, but the reset's plain offsets replace its result; when
        the reset moved the QR to bottom-centre from another position, the
        snap effect runs once more on the next render. */
    method ApplyReset(w: int, h: int, q: int)
      modifies this
      ensures labelW == w && labelH == h && qrSize == q && position == BottomCenter
      ensures old(position) == BottomCenter ==>
                offsetX == (w - q) as real / 2.0 && offsetY == (h - q - 8) as real
      ensures old(position) != BottomCenter && !dragEnabled ==>
                offsetX == ComputeLeft(BottomCenter, w, q, 8) as real && offsetY == (h - q - 8) as real
      ensures old(position) != BottomCenter && dragEnabled ==>
                offsetX == ClampOffset((w - q) as real / 2.0, w - q)
                && offsetY == ClampOffset((h - q - 8) as real, h - q)
      ensures dragEnabled == old(dragEnabled) && dragging == old(dragging)
      ensures dragStartX == old(dragStartX) && dragStartY == old(dragStartY)
    {
      var wasCentred := position == BottomCenter;
      labelW, labelH, qrSize := w, h, q;
      Sync();
      Reset();
      if !wasCentred {
        Sync();
      }
    }
  }

  /** Grabbing the QR and moving the pointer by (dx, dy) moves the QR by
      the same amount, clamped to the label: the QR does not jump when it
      is grabbed. */
  method DragBy(p: QrPlacer, px: real, py: real, dx: real, dy: real)
    requires p.dragEnabled
    modifies p
    ensures p.offsetX == ClampOffset(old(p.offsetX) + dx, p.labelW - p.qrSize)
    ensures p.offsetY == ClampOffset(old(p.offsetY) + dy, p.labelH - p.qrSize)
    ensures !p.dragging
  {
    p.PointerDown(px, py);
    p.PointerMove(px + dx, py + dy);
    p.PointerUp();
  }

  /** A reset QR lies in the label whenever it fits in it with eight
      pixels to spare below. */
  lemma ResetInLabel(labelW: int, labelH: int, qr: int)
    requires qr <= labelW && qr + 8 <= labelH
    ensures InLabel((labelW - qr) as real / 2.0, (labelH - qr - 8) as real, labelW, labelH, qr)
  {
  }
}
