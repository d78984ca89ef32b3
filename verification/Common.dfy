/** Small shared definitions. */
module Common {

  /** Size of a ring in dwords. */
  const KGSL_RB_DWORDS: nat := 8192

  datatype Option<T> = None | Some(value: T)

  lemma Associate<T>(x: seq<T>, y: seq<T>, z: seq<T>)
    ensures x + y + z == x + (y + z)
  {
  }
}
