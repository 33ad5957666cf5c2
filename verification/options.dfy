/** The optional-value datatype shared by every module: `None` plays the part
    of JavaScript's `undefined` wherever a property or element may be absent. */
module Options {

  datatype Option<+T> = None | Some(value: T)

}
