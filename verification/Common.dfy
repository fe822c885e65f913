/** Small shared definitions. */
module Common {
  datatype Option<+T> = None | Some(value: T)

  /** What a member may be in a workspace. */
  datatype Role = OWNER | ADMIN | MEMBER | VIEWER
}
