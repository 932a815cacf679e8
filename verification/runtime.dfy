/** The exceptions the modelled code can raise at run time. */
module Runtime {

  datatype Fault =
    | NullReference     // a member was accessed through a null reference
    | MissingReference  // a member was accessed on an engine object that was destroyed
}
