/** The optional value used wherever the program may have "nothing": no
    matching device, no error, no series written. */
module Options {

  datatype Option<+T> = None | Some(value: T)
}
