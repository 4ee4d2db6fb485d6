/** Constants of src/config.hpp and the value types every component shares. */
module Config {

  const MAX_WORKER_QUEUE: nat := 32
  const HISTOGRAM_SEGMENTS: nat := 1024

  /** Whole seconds. */
  const MAX_HEARTBEAT_INTERVAL: nat := 5

  type byte = x: int | 0 <= x < 0x100
  type uint32 = x: int | 0 <= x < 0x1_0000_0000

  /** `std::array<float, HISTOGRAM_SEGMENTS>`; floats are modelled as reals. */
  type Histogram = h: seq<real> | |h| == HISTOGRAM_SEGMENTS
    witness seq(HISTOGRAM_SEGMENTS, _ => 0.0)

  function Min(a: nat, b: nat): nat {
    if a <= b then a else b
  }
}
