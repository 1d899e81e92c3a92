/** A sample on the sender's side, and what the input core lets through of it. */
module RawSample {
  import opened InputEvents

  /** A sample as the kernel driver holds it, before division. */
  datatype Raw = Raw(x: int, y: int, z: int, status: int, timestamp: int)

  const ZERO := Raw(0, 0, 0, 0, 0)

  /** Which unchanged ABS fields the input core lets through all the same. */
  datatype Keep = Keep(x: bool, y: bool, z: bool, status: bool)

  /** A field goes through when it is kept, or differs from the one sent before. */
  predicate SendsX(was: Raw, raw: Raw, keep: Keep) { keep.x || raw.x != was.x }
  predicate SendsY(was: Raw, raw: Raw, keep: Keep) { keep.y || raw.y != was.y }
  predicate SendsZ(was: Raw, raw: Raw, keep: Keep) { keep.z || raw.z != was.z }
  predicate SendsStatus(was: Raw, raw: Raw, keep: Keep) { keep.status || raw.status != was.status }

  /** The sample as the HAL passes it on, under its own timestamp. */
  function Taken(div: int, r: Raw): Sample {
    Sample(Quotient(r.x, div), Quotient(r.y, div), Quotient(r.z, div), r.status, r.timestamp)
  }

  /** The fields of `p` are those of raw sample `r`. */
  ghost predicate Carries(p: Sample, div: int, r: Raw) {
    p.x == Quotient(r.x, div) && p.y == Quotient(r.y, div) && p.z == Quotient(r.z, div) && p.status == r.status
  }

  /** Every field that is left out is in `p` already. */
  ghost predicate FillsIn(p: Sample, div: int, was: Raw, raw: Raw, keep: Keep) {
    && (SendsX(was, raw, keep) || p.x == Quotient(was.x, div))
    && (SendsY(was, raw, keep) || p.y == Quotient(was.y, div))
    && (SendsZ(was, raw, keep) || p.z == Quotient(was.z, div))
    && (SendsStatus(was, raw, keep) || p.status == was.status)
  }
}
