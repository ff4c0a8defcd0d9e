// Types shared by the models of the individual services.
module Common {

  type Id = string

  datatype Option<+T> = None | Some(value: T)
}
