/** The optional value used throughout the model, and the smaller of two numbers. */
module Options {
  datatype Option<+T> = None | Some(value: T)

  function Least(a: nat, b: nat): nat {
    if a < b then a else b
  }
}
