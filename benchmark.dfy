/** The call forms of the `ParseProtoTypeBenchmark` benchmarks: every input
    is drawn from [0, 255); four strategies are handed the input's low three
    bits and the masked-table strategy the raw input. */
module BenchmarkCallForms {
  import opened KotlinInt
  import opened WireType

  /** On every benchmark input the five call forms decode to the same wire
      type, namely the reference decoder's answer for the low three bits. */
  lemma CallFormsAgree(v: int)
    requires 0 <= v < 255
    ensures FromSwitch(Low3Bits(v)) == FromDefaultImpl(Low3Bits(v))
    ensures FromArray(Low3Bits(v)) == FromDefaultImpl(Low3Bits(v))
    ensures FromShortArray(Low3Bits(v)) == FromDefaultImpl(Low3Bits(v))
    ensures FromArrayLowerBits(v) == FromDefaultImpl(Low3Bits(v))
  {
  }
}
