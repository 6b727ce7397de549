// The optional value used by every component.
module Options {
  datatype Option<+T> = None | Some(value: T)

  // An optional text that JavaScript reads as true.
  predicate Present(s: Option<string>) { s.Some? && s.value != "" }
}
