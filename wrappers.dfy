/** The optional value used for lookups that may find nothing and for the
    `currentTool` field, which is undefined until a tool is first chosen. */
module Wrappers {
  datatype Option<+T> = None | Some(value: T)
}
