/** The range-containment test the code-action handler uses to pick diagnostics. */
module RangeUtil {
  import opened Lsp

  /**
   * Range `a` lies in range `b`: four independent inclusive comparisons, the
   * characters compared without regard to the lines they are on.
   */
  predicate IsInRange(a: Range, b: Range)
  {
    && a.start.line >= b.start.line
    && a.start.character >= b.start.character
    && a.end.line <= b.end.line
    && a.end.character <= b.end.character
  }

  /** Every range lies in itself, because all four comparisons are inclusive. */
  lemma IsInRangeReflexive(a: Range)
    ensures IsInRange(a, a)
  {
  }

  /** Containment is transitive. */
  lemma IsInRangeTransitive(a: Range, b: Range, c: Range)
    requires IsInRange(a, b) && IsInRange(b, c)
    ensures IsInRange(a, c)
  {
  }

  /** Two ranges that lie in each other are the same range. */
  lemma IsInRangeAntisymmetric(a: Range, b: Range)
    requires IsInRange(a, b) && IsInRange(b, a)
    ensures a == b
  {
  }

  /**
   * Characters are compared regardless of lines: a range on line 2 is rejected from a
   * range spanning lines 1 to 3 when it starts at a smaller column than the outer range.
   */
  lemma ColumnsComparedAcrossLines()
    ensures !IsInRange(Range(Position(2, 0), Position(2, 1)), Range(Position(1, 5), Position(3, 9)))
  {
  }
}
