/** How the loop's arrays grow. */
module Arrays {
  const MALLOC_ROUND := 4096

  // The size of a C pointer; the rounding leaves four of them for the allocator.
  newtype PointerSize = n: int | n == 4 || n == 8 witness 8

  function Pow2(n: nat): nat {
    if n == 0 then 1 else 2 * Pow2(n - 1)
  }

  // Twice one more than the old size, or a doubling of that which is less than twice what is needed
  predicate Doubled(ncur: nat, cur: nat, cnt: int) {
    ncur >= cnt && ncur >= 2 * (cur + 1) && (ncur == 2 * (cur + 1) || ncur < 2 * cnt)
  }

  // As many elements as fit into whole pages less the allocator's own four pointers
  predicate FillsPages(ncur: nat, elem: nat, ptr: PointerSize, bytes: nat) {
    (bytes + 4 * ptr as int) % MALLOC_ROUND == 0 && ncur * elem <= bytes < (ncur + 1) * elem
  }

  // array_nextsize, where no intermediate value overflows an int.
  method ArrayNextSize(elem: nat, cur: nat, cnt: int, ptr: PointerSize) returns (ncur: nat)
    requires elem > 0
    ensures ncur >= cnt && ncur >= 2 * (cur + 1)
    ensures exists raw: nat :: Doubled(raw, cur, cnt) &&
              if elem * raw <= MALLOC_ROUND - 4 * ptr as int then ncur == raw
              else exists bytes: nat ::
                     FillsPages(ncur, elem, ptr, bytes) && raw * elem <= bytes < (raw + 1) * elem + MALLOC_ROUND
  {
    ncur := cur + 1;
    ncur := 2 * ncur;
    while cnt > ncur
      invariant ncur >= 2 * (cur + 1) && (ncur == 2 * (cur + 1) || ncur < 2 * cnt)
      decreases cnt - ncur
    {
      ncur := 2 * ncur;
    }
    ghost var raw := ncur;
    assert Doubled(raw, cur, cnt);
    if elem * ncur > MALLOC_ROUND - 4 * ptr as int {
      var bytes := ncur * elem + elem + (MALLOC_ROUND - 1) + 4 * ptr as int;
      bytes := bytes - bytes % MALLOC_ROUND - 4 * ptr as int;
      DivideAtLeast(bytes, elem, ncur);
      ncur := bytes / elem;
      Fills(ncur, elem, ptr, bytes, raw);
    }
  }

  lemma Fills(ncur: nat, elem: nat, ptr: PointerSize, bytes: nat, raw: nat)
    requires elem > 0 && ncur == bytes / elem && (bytes + 4 * ptr as int) % MALLOC_ROUND == 0
    requires raw * elem <= bytes < raw * elem + elem + MALLOC_ROUND
    ensures FillsPages(ncur, elem, ptr, bytes) && raw * elem <= bytes < (raw + 1) * elem + MALLOC_ROUND
  {
    assert bytes == ncur * elem + bytes % elem;
  }

  lemma DivideAtLeast(bytes: int, elem: nat, n: nat)
    requires elem > 0 && bytes >= n * elem
    ensures bytes / elem >= n
  {
    var q, r := bytes / elem, bytes % elem;
    assert bytes == q * elem + r && r < elem;
    assert (n - q) * elem == n * elem - q * elem;
    if n > q { MulAtLeast(n - q, elem); }
  }

  lemma MulAtLeast(k: nat, elem: nat)
    requires k >= 1
    ensures k * elem >= elem
  {
  }

  // Growing r times from empty, each time at least to twice one more than before, gives at least 2^(r+1) - 2.
  lemma {:induction false} GrowthIsGeometric(sizes: seq<nat>)
    requires sizes != [] && sizes[0] == 0
    requires forall i :: 0 < i < |sizes| ==> sizes[i] >= 2 * (sizes[i - 1] + 1)
    ensures sizes[|sizes| - 1] >= Pow2(|sizes|) - 2
  {
    if |sizes| > 1 {
      var shorter := sizes[..|sizes| - 1];
      GrowthIsGeometric(shorter);
      assert sizes[|sizes| - 1] >= 2 * (shorter[|shorter| - 1] + 1);
    }
  }
}
