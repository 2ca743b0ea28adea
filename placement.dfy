/**
 * Where the mousemove handler puts a region's tooltip: 20 pixels right of and above
 * the pointer, flipped to the pointer's left (with the `positioned-left` class) when
 * it would pass the window's right edge.
 */
module Placement {

  const Offset: int := 20

  /** `left`, `top`, and whether the element carries the `positioned-left` class. */
  datatype Placement = Placement(left: int, top: int, positionedLeft: bool)

  /** The mousemove handler's position and `positioned-left` class for the tooltip element. */
  function PlaceTooltip(pageX: int, pageY: int, tooltipWidth: nat, windowWidth: int): (p: Placement)
    ensures p.top == pageY - Offset
    ensures p.positionedLeft <==> pageX + tooltipWidth + Offset > windowWidth
    ensures !p.positionedLeft ==> p.left == pageX + Offset && p.left + tooltipWidth <= windowWidth
    ensures p.positionedLeft ==> p.left + tooltipWidth + Offset == pageX
  {
    if pageX + tooltipWidth + Offset > windowWidth then
      Placement(pageX - tooltipWidth - Offset, pageY - Offset, true)
    else
      Placement(pageX + Offset, pageY - Offset, false)
  }

  /** The tooltip never covers the pointer: it lies at least 20 pixels to one side of it. */
  lemma TooltipClearsPointer(pageX: int, pageY: int, tooltipWidth: nat, windowWidth: int)
    ensures var p := PlaceTooltip(pageX, pageY, tooltipWidth, windowWidth);
      p.left >= pageX + Offset || p.left + tooltipWidth <= pageX - Offset
  {
  }

  /** Moving the pointer right never un-flips the tooltip. */
  lemma FlipIsMonotone(pageX: int, pageX': int, pageY: int, tooltipWidth: nat, windowWidth: int)
    requires pageX <= pageX'
    ensures PlaceTooltip(pageX, pageY, tooltipWidth, windowWidth).positionedLeft
      ==> PlaceTooltip(pageX', pageY, tooltipWidth, windowWidth).positionedLeft
  {
  }
}
