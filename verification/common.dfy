/** Shared vocabulary of the command-line front end: optional values and paths. */
module Common {

  /** An argparse attribute that is either None or holds a value. */
  datatype Option<+T> = None | Some(value: T)

  /** A file-system path, passed through untouched to the collaborators. */
  type Path = string
}
