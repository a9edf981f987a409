/** An optional value: used for the query's optional parameters and for
    parsers that may reject their input. */
module Options {

  datatype Option<+T> = None | Some(value: T)

}
