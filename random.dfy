/**
 * The random source of a strategy: a std::mt19937 engine read through
 * std::uniform_real_distribution{1.0, 2.0}. The model does not generate numbers; it is
 * given the stream of values the engine would yield and counts how many were taken.
 */
module Random {

  /** Every value of a uniform_real_distribution{1.0, 2.0} lies in [1.0, 2.0). */
  ghost predicate InDistributionRange(values: nat -> real) {
    forall k: nat :: 1.0 <= values(k) < 2.0
  }

  class Generator {
    /** values(k) is the k-th number the engine yields. */
    const values: nat -> real
    /** How many numbers have been drawn so far. */
    var drawn: nat

    ghost predicate Valid() {
      InDistributionRange(values)
    }

    constructor (values: nat -> real)
      requires InDistributionRange(values)
      ensures Valid()
      ensures this.values == values && drawn == 0
    {
      this.values := values;
      drawn := 0;
    }

    /** One call of `m_dist(m_mt)`: yields the next value of the stream. */
    method Next() returns (d: real)
      modifies this
      ensures d == values(old(drawn)) && drawn == old(drawn) + 1
      ensures Valid() ==> 1.0 <= d < 2.0
    {
      d := values(drawn);
      drawn := drawn + 1;
    }
  }
}
