/** Distribution objects (`Distribution` in ppl-impl/src/types.rs) seen from
    the outside. Drawing from one and evaluating its density are delegated
    to external sampling and density libraries, so the model takes both as
    given functions. */
module Distributions {
  import opened Types

  /** `draw(d, n)` is what the `n`-th draw of the random stream yields when
      taken from `d`; `logPdf(d, v)` is the log-density of `v` under `d`.
      Either can fail, as the source's `sample` and `log_pdf` can. */
  datatype Oracle = Oracle(draw: (Dist, nat) -> Result<Value>, logPdf: (Dist, Value) -> Result<real>)

  /** The process-wide random stream: it only remembers how many draws it
      has handed out. */
  class Rng {
    const oracle: Oracle
    var drawn: nat

    constructor (oracle: Oracle)
      ensures this.oracle == oracle
      ensures drawn == 0
    {
      this.oracle := oracle;
      drawn := 0;
    }

    /** `Distribution::sample`: the next draw of the stream, taken from `d`. */
    method Sample(d: Dist) returns (r: Result<Value>)
      modifies this
      ensures r == oracle.draw(d, old(drawn))
      ensures drawn == old(drawn) + 1
    {
      r := oracle.draw(d, drawn);
      drawn := drawn + 1;
    }
  }
}
