/** Possibly undefined numbers and the comparisons pandas applies to them. */
module Optional {

  /** `None` stands for a not-a-number cell of a pandas column. */
  datatype Option<T> = None | Some(value: T)

  /** `a > b` on float columns: false whenever either side is NaN. */
  predicate Greater(a: Option<real>, b: Option<real>)
  {
    a.Some? && b.Some? && a.value > b.value
  }

  /** `a < b` on float columns: false whenever either side is NaN. */
  predicate Less(a: Option<real>, b: Option<real>)
  {
    a.Some? && b.Some? && a.value < b.value
  }

  /** `a >= b` on float columns: false whenever either side is NaN. */
  predicate AtLeast(a: Option<real>, b: Option<real>)
  {
    a.Some? && b.Some? && a.value >= b.value
  }
}
