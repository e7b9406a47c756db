/** Small definitions that several modules share. */
module Common {
  const INT_MAX := 0x7fff_ffff

  datatype Option<+T> = None | Some(value: T)

  function Min(a: nat, b: nat): nat { if a <= b then a else b }
}
