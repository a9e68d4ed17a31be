/** A value that may be missing. */
module Options {
  datatype Option<+T> = None | Some(value: T)
}

/** The states of a process (proc.h:53). */
module ProcStates {
  datatype State = Unused | Embryo | Sleeping | Runnable | Running | Zombie
}
