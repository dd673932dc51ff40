// The optional value Python spells `Optional[T]` / `None`.
module OptionType {

  datatype Option<+T> = None | Some(value: T)
}
