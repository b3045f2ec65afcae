/**
 * Level-of-detail progression and the shading tables of the rendering
 * manager, as values.
 *
 * After each finished render the manager raises its level of detail by one
 * and asks for another pass, as long as a 3D window is known, the level is
 * below the maximum and raising it is not blocked. The level-of-detail
 * fields are plain ints in the source. The end callback's raise by one
 * cannot wrap, since it happens only below the maximum; the maximum itself
 * is stored as the caller's number minus one, which wraps in the source for
 * the least int and is kept unbounded here.
 */
module LevelOfDetail {

  /** Slots of the shading-enabled vector and of the shading-value vector. */
  const ShadingSlots: int := 3
  const ShadingValueSlots: int := 4

  /** The maximum level a new manager starts with. */
  const DefaultMaxLOD: int := 2

  /** Does a finished render raise the level of detail? */
  predicate LodIncreases(numberOf3DRW: int, currentLOD: int, maxLOD: int, increaseBlocked: bool)
  {
    numberOf3DRW > 0 && currentLOD < maxLOD && !increaseBlocked
  }

  /** The level of detail after one render-end event. */
  function LodAfterRenderEnd(numberOf3DRW: int, currentLOD: int, maxLOD: int, increaseBlocked: bool): (lod: int)
    ensures lod == currentLOD || lod == currentLOD + 1
    ensures lod == currentLOD + 1 <==> LodIncreases(numberOf3DRW, currentLOD, maxLOD, increaseBlocked)
    ensures currentLOD <= maxLOD ==> lod <= maxLOD
    ensures currentLOD >= maxLOD ==> lod == currentLOD
  {
    if LodIncreases(numberOf3DRW, currentLOD, maxLOD, increaseBlocked) then currentLOD + 1 else currentLOD
  }

  /** The level of detail after `n` render-end events in a row, with the
      3D-window count and the block flag left as they are. */
  function LodAfterRenderEnds(n: nat, numberOf3DRW: int, currentLOD: int, maxLOD: int, increaseBlocked: bool): int
  {
    if n == 0 then currentLOD
    else LodAfterRenderEnds(n - 1, numberOf3DRW, LodAfterRenderEnd(numberOf3DRW, currentLOD, maxLOD, increaseBlocked), maxLOD, increaseBlocked)
  }

  function Min(a: int, b: int): int
  {
    if a <= b then a else b
  }

  /** Progressive refinement: with a 3D window and no block, each finished
      render raises the level by one until the maximum, and never past it. */
  lemma {:induction false} RefinementReachesMaxLOD(n: nat, numberOf3DRW: int, currentLOD: int, maxLOD: int)
    requires numberOf3DRW > 0 && currentLOD <= maxLOD
    ensures LodAfterRenderEnds(n, numberOf3DRW, currentLOD, maxLOD, false) == Min(currentLOD + n, maxLOD)
  {
    if n > 0 {
      var next := LodAfterRenderEnd(numberOf3DRW, currentLOD, maxLOD, false);
      RefinementReachesMaxLOD(n - 1, numberOf3DRW, next, maxLOD);
    }
  }

  /** Without a known 3D window, with the increase blocked, or at (or above)
      the maximum, finished renders never change the level. */
  lemma {:induction false} RefinementStalls(n: nat, numberOf3DRW: int, currentLOD: int, maxLOD: int, increaseBlocked: bool)
    requires numberOf3DRW <= 0 || increaseBlocked || currentLOD >= maxLOD
    ensures LodAfterRenderEnds(n, numberOf3DRW, currentLOD, maxLOD, increaseBlocked) == currentLOD
  {
    if n > 0 {
      RefinementStalls(n - 1, numberOf3DRW, currentLOD, maxLOD, increaseBlocked);
    }
  }

  /** Render-end events alone never carry the level past the maximum. */
  lemma {:induction false} RefinementBounded(n: nat, numberOf3DRW: int, currentLOD: int, maxLOD: int, increaseBlocked: bool)
    requires currentLOD <= maxLOD
    ensures currentLOD <= LodAfterRenderEnds(n, numberOf3DRW, currentLOD, maxLOD, increaseBlocked) <= maxLOD
  {
    if n > 0 {
      var next := LodAfterRenderEnd(numberOf3DRW, currentLOD, maxLOD, increaseBlocked);
      RefinementBounded(n - 1, numberOf3DRW, next, maxLOD, increaseBlocked);
    }
  }

  /** The only check SetShading and GetShading make on a level index. */
  predicate ShadingGuardAsWritten(lod: int, maxLOD: int)
  {
    !(lod > maxLOD)
  }

  /** The check they need so that the index falls inside the shading vector:
      it admits only what the written check admits, and only in-range
      indices. */
  predicate ShadingIndexInRange(lod: int, maxLOD: int)
    ensures ShadingIndexInRange(lod, maxLOD) ==> ShadingGuardAsWritten(lod, maxLOD) && 0 <= lod < ShadingSlots
  {
    0 <= lod <= maxLOD && lod < ShadingSlots
  }

  /** While the maximum level fits the shading vector (as it does from
      construction, and after SetNumberOfLOD(n) for n <= 3), the two checks
      agree on every non-negative index. */
  lemma GuardsAgreeWhileMaxFits(lod: int, maxLOD: int)
    requires maxLOD < ShadingSlots && lod >= 0
    ensures ShadingIndexInRange(lod, maxLOD) <==> ShadingGuardAsWritten(lod, maxLOD)
  {
  }

  /** The written check lets through index 3 once SetNumberOfLOD(4) has set
      the maximum to 3, and index -1 under the default maximum: both fall
      outside the three-slot vector. */
  lemma AsWrittenGuardAdmitsOutOfRange()
    ensures ShadingGuardAsWritten(3, 4 - 1) && !(3 < ShadingSlots)
    ensures ShadingGuardAsWritten(-1, DefaultMaxLOD) && !(0 <= -1)
    ensures !ShadingIndexInRange(3, 4 - 1) && !ShadingIndexInRange(-1, DefaultMaxLOD)
  {
  }
}
