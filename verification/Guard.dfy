/** Facts the verifier should use only on request. */
module Guard {

  /** Always true. A fact stated under `Open(n)` is available only where `Open(n)` is mentioned. */
  ghost predicate Open(n: int) { true }
}
