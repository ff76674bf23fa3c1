/** An absent-or-present value: the model's stand-in for a pandas cell that
    may hold NaN / NaT after coercion. */
module Optional {

  datatype Option<+T> = None | Some(value: T)
}
